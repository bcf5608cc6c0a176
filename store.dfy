/**
 * The store: a cache of pages, data entries and page lists keyed by url
 * or name, an index from page url to its place in a list, and the current
 * page and list.
 *
 * The state is the class `Store`; its getters are functions of a snapshot
 * of that state (`StoreState`), its mutations and actions are methods. The
 * network is the parameter `server` (see ApiClient); the ghost field
 * `requests` records every url the store asks it for.
 */
module VuetalStore {
  import opened Outcomes
  import opened Resources
  import opened PageSort
  import opened ApiClient

  /** A configured collection: the url of its list (maybe unset) and its resource type. */
  datatype Collection = Collection(list: Option<string>, kind: string)

  /** A snapshot of the store's state. */
  datatype StoreState = StoreState(
    pages: map<string, Page>,
    data: map<string, DataEntry>,
    lists: map<string, PageList>,
    listsByUrl: map<string, string>,
    pageMap: map<string, Loc>,
    currentPage: Option<string>,
    currentList: Option<string>)

  /** `state()`: everything empty, no current page or list. */
  const Initial: StoreState := StoreState(map[], map[], map[], map[], map[], None, None)

  /** Pages and data entries sit under their own url, lists under their own name. */
  predicate Keyed(s: StoreState)
  {
    && (forall u :: u in s.pages ==> s.pages[u].url == u)
    && (forall u :: u in s.data ==> s.data[u].url == u)
    && (forall n :: n in s.lists ==> s.lists[n].name == n)
  }

  // ---------------------------------------------------------------------
  // Getters

  /** `page(url)`: the cached page, or the sentinel. */
  function PageOf(s: StoreState, url: string): (r: Page)
    ensures url in s.pages ==> r == s.pages[url]
    ensures url !in s.pages ==> r == EmptyItem
  {
    if url in s.pages then s.pages[url] else EmptyItem
  }

  /** `data(url)`: the payload of the cached entry, or `{}`. */
  function DataOf(s: StoreState, url: string): (r: map<string, string>)
    ensures url in s.data && s.data[url].data.Some? ==> r == s.data[url].data.value
    ensures !(url in s.data && s.data[url].data.Some?) ==> r == map[]
  {
    if url in s.data && s.data[url].data.Some? then s.data[url].data.value else map[]
  }

  /**
   * `current`: the sentinel when no page is current, otherwise the cached
   * page under the current url, which is `undefined` (None) once that page
   * has been removed from the cache.
   */
  function Current(s: StoreState): (r: Option<Page>)
    ensures !Truthy(s.currentPage) ==> r == Some(EmptyItem)
    ensures Truthy(s.currentPage) ==> (r.Some? <==> s.currentPage.value in s.pages)
    ensures Truthy(s.currentPage) && r.Some? ==> r.value == s.pages[s.currentPage.value]
  {
    if !Truthy(s.currentPage) then Some(EmptyItem)
    else if s.currentPage.value in s.pages then Some(s.pages[s.currentPage.value])
    else None
  }

  /** What the `currentList` getter yields: a list, the sentinel, or `undefined`. */
  datatype ListView = ShownList(list: PageList) | ShownEmptyItem | ShownUndefined

  /** `currentList`: the sentinel when no list is current, otherwise the cached list of that name. */
  function CurrentList(s: StoreState): (r: ListView)
    ensures !Truthy(s.currentList) ==> r == ShownEmptyItem
    ensures Truthy(s.currentList) ==> (r.ShownList? <==> s.currentList.value in s.lists)
    ensures r.ShownList? ==> Truthy(s.currentList) && r.list == s.lists[s.currentList.value]
    ensures r != ShownEmptyItem || !Truthy(s.currentList)
  {
    if !Truthy(s.currentList) then ShownEmptyItem
    else if s.currentList.value in s.lists then ShownList(s.lists[s.currentList.value])
    else ShownUndefined
  }

  /** The object key a possibly-null current page url reads: `null` reads `"null"`. */
  function PropertyKey(p: Option<string>): string
  {
    if p.Some? then p.value else "null"
  }

  /** The `pageMap` entry of the current page, if any. */
  function CurrentLoc(s: StoreState): Option<Loc>
  {
    var key := PropertyKey(s.currentPage);
    if key in s.pageMap then Some(s.pageMap[key]) else None
  }

  /** `data[j] || emptyItem` */
  function Neighbour(d: seq<Page>, j: int): Page
  {
    if 0 <= j < |d| then d[j] else EmptyItem
  }

  /**
   * The page `k` places after the current one in its list is `p`: the
   * current page has a `pageMap` entry, its list is cached and the index
   * is in range.
   */
  predicate AtOffset(s: StoreState, k: int, p: Page)
  {
    && CurrentLoc(s).Some?
    && CurrentLoc(s).value.list in s.lists
    && 0 <= CurrentLoc(s).value.index + k < |s.lists[CurrentLoc(s).value.list].data|
    && s.lists[CurrentLoc(s).value.list].data[CurrentLoc(s).value.index + k] == p
  }

  /** Reading `.data` of the list a `pageMap` entry names, when that list is gone, throws. */
  predicate Stranded(s: StoreState)
  {
    CurrentLoc(s).Some? && CurrentLoc(s).value.list !in s.lists
  }

  /** Whether the index `k` places after the current page's is inside its list. */
  predicate InRange(s: StoreState, k: int)
  {
    && CurrentLoc(s).Some?
    && CurrentLoc(s).value.list in s.lists
    && 0 <= CurrentLoc(s).value.index + k < |s.lists[CurrentLoc(s).value.list].data|
  }

  function Step(s: StoreState, k: int): Result<Page, string>
  {
    match CurrentLoc(s)
    case None => Success(EmptyItem)
    case Some(loc) =>
      if loc.list !in s.lists then Failure("TypeError: cannot read properties of undefined (reading 'data')")
      else Success(Neighbour(s.lists[loc.list].data, loc.index + k))
  }

  /**
   * `next`: the page after the current one in its list, or the sentinel at
   * the end of the list or when the current page is in no list; throws when
   * its list has been removed.
   */
  function Next(s: StoreState): (r: Result<Page, string>)
    ensures r.Failure? <==> Stranded(s)
    ensures InRange(s, 1) ==> r.Success? && AtOffset(s, 1, r.value)
    ensures !InRange(s, 1) && !Stranded(s) ==> r == Success(EmptyItem)
  {
    Step(s, 1)
  }

  /** `previous`: as `next`, one place back. */
  function Previous(s: StoreState): (r: Result<Page, string>)
    ensures r.Failure? <==> Stranded(s)
    ensures InRange(s, -1) ==> r.Success? && AtOffset(s, -1, r.value)
    ensures !InRange(s, -1) && !Stranded(s) ==> r == Success(EmptyItem)
  {
    Step(s, -1)
  }

  // ---------------------------------------------------------------------
  // Mutations, as transitions of the state

  function UrlsOf(d: seq<Page>): set<string>
  {
    set i | 0 <= i < |d| :: d[i].url
  }

  /** `i` is the last index of `d` holding a page with url `u`. */
  predicate IsLastIndex(d: seq<Page>, u: string, i: nat)
  {
    i < |d| && d[i].url == u && forall j :: i < j < |d| ==> d[j].url != u
  }

  /**
   * The `pageMap` entries the loop of ADD_OR_UPDATE_LIST writes: later
   * indices overwrite earlier ones.
   */
  function ListIndex(name: string, d: seq<Page>): map<string, Loc>
  {
    if d == [] then map[] else ListIndex(name, d[..|d| - 1])[d[|d| - 1].url := Loc(name, |d| - 1)]
  }

  /** One more turn of the loop adds one more entry. */
  lemma ListIndexStep(name: string, d: seq<Page>, i: nat)
    requires i < |d|
    ensures ListIndex(name, d[..i + 1]) == ListIndex(name, d[..i])[d[i].url := Loc(name, i)]
  {
    assert d[..i + 1][..i] == d[..i];
  }

  /** The urls of the first `n + 1` pages are those of the first `n` and the next. */
  lemma UrlsOfSnoc(d: seq<Page>, n: nat)
    requires n < |d|
    ensures UrlsOf(d[..n + 1]) == UrlsOf(d[..n]) + {d[n].url}
  {
    var e := d[..n + 1];
    assert forall i :: 0 <= i < n ==> e[i] == d[..n][i];
    forall u | u in UrlsOf(e) ensures u in UrlsOf(d[..n]) + {d[n].url} {
      var i :| 0 <= i < |e| && e[i].url == u;
      if i < n { assert d[..n][i] == e[i]; }
    }
  }

  /** ListIndex indexes exactly the urls of the list. */
  lemma {:induction false} ListIndexKeys(name: string, d: seq<Page>)
    ensures ListIndex(name, d).Keys == UrlsOf(d)
  {
    if d != [] {
      var n := |d| - 1;
      ListIndexKeys(name, d[..n]);
      UrlsOfSnoc(d, n);
      assert d[..n + 1] == d;
    }
  }

  /** ListIndex maps each url to the last index it occurs at. */
  lemma {:induction false} ListIndexLast(name: string, d: seq<Page>, u: string)
    requires u in ListIndex(name, d)
    ensures IsLastIndex(d, u, ListIndex(name, d)[u].index)
  {
    var n := |d| - 1;
    var m := ListIndex(name, d[..n]);
    if d[n].url != u {
      ListIndexLast(name, d[..n], u);
      var i := m[u].index;
      assert d[..n][i] == d[i];
      forall j | i < j < |d| ensures d[j].url != u {
        if j < n { assert d[..n][j] == d[j]; }
      }
    }
  }

  /** Every entry ListIndex writes names the list. */
  lemma {:induction false} ListIndexNames(name: string, d: seq<Page>, u: string)
    requires u in ListIndex(name, d)
    ensures ListIndex(name, d)[u].list == name
  {
    if d[|d| - 1].url != u {
      ListIndexNames(name, d[..|d| - 1], u);
    }
  }

  lemma ListIndexFacts(name: string, d: seq<Page>)
    ensures ListIndex(name, d).Keys == UrlsOf(d)
    ensures forall u :: u in ListIndex(name, d) ==>
      ListIndex(name, d)[u].list == name && IsLastIndex(d, u, ListIndex(name, d)[u].index)
  {
    ListIndexKeys(name, d);
    forall u | u in ListIndex(name, d)
      ensures ListIndex(name, d)[u].list == name && IsLastIndex(d, u, ListIndex(name, d)[u].index)
    {
      ListIndexNames(name, d, u);
      ListIndexLast(name, d, u);
    }
  }

  /** ADD_OR_UPDATE_DATA */
  function AddData(s: StoreState, entry: DataEntry): StoreState
  {
    s.(data := s.data[entry.url := entry])
  }

  /** ADD_OR_UPDATE_PAGE */
  function AddPage(s: StoreState, page: Page): StoreState
  {
    s.(pages := s.pages[page.url := page])
  }

  /** ADD_OR_UPDATE_LIST */
  function AddList(s: StoreState, list: PageList): StoreState
  {
    s.(lists := s.lists[list.name := list],
       listsByUrl := s.listsByUrl[list.url := list.name],
       pageMap := s.pageMap + ListIndex(list.name, list.data))
  }

  /**
   * ADD_OR_UPDATE_LIST puts the list under its name and its name under its
   * url, and indexes each of its pages at the last place it occurs; every
   * other `pageMap` entry and every other part of the state is left alone.
   */
  lemma AddListIndexesPages(s: StoreState, list: PageList)
    ensures var r := AddList(s, list);
      && r.lists == s.lists[list.name := list] && r.listsByUrl == s.listsByUrl[list.url := list.name]
      && (forall u :: u in UrlsOf(list.data) ==>
            u in r.pageMap && r.pageMap[u].list == list.name && IsLastIndex(list.data, u, r.pageMap[u].index))
      && (forall u :: u !in UrlsOf(list.data) ==>
            (u in r.pageMap <==> u in s.pageMap) && (u in s.pageMap ==> r.pageMap[u] == s.pageMap[u]))
      && r.pages == s.pages && r.data == s.data
      && r.currentPage == s.currentPage && r.currentList == s.currentList
  {
    ListIndexFacts(list.name, list.data);
  }

  /** REMOVE_PAGE: the page leaves the cache and the index, nothing else. */
  function DropPage(s: StoreState, url: string): StoreState
  {
    s.(pages := s.pages - {url}, pageMap := s.pageMap - {url})
  }

  /**
   * REMOVE_LIST: throws for an unknown name; otherwise the list and the
   * `listsByUrl` entry of its url go, and `pageMap` keeps its entries.
   */
  function DropList(s: StoreState, name: string): Result<StoreState, string>
  {
    if name !in s.lists then Failure("TypeError: cannot read properties of undefined (reading 'url')")
    else Success(s.(lists := s.lists - {name}, listsByUrl := s.listsByUrl - {s.lists[name].url}))
  }

  /**
   * The body FETCH_API commits: a list named `pages` gets its pages sorted,
   * keeping its name, its url and its pages; any other body is kept as it is.
   */
  function Prepared(b: Body): (r: Body)
    ensures !(b.ListBody? && b.list.name == "pages") ==> r == b
    ensures b.ListBody? ==>
      (r.ListBody? && r.list.name == b.list.name && r.list.url == b.list.url
       && multiset(r.list.data) == multiset(b.list.data))
    ensures b.ListBody? && b.list.name == "pages" ==> Ordered(r.list.data)
  {
    if b.ListBody? && b.list.name == "pages" then
      SortPagesOrdered(b.list.data);
      ListBody(b.list.(data := SortPages(b.list.data)))
    else b
  }

  /** FETCH_API's switch on the body's `type`: which mutation it commits. */
  function Commit(s: StoreState, b: Body): StoreState
  {
    match b
    case PageBody(p) => AddPage(s, p)
    case DataBody(e) => AddData(s, e)
    case ListBody(l) => AddList(s, l)
    case _ => s
  }

  /**
   * FETCH_API after `fetchApi` settled: the response it returns (with the
   * list sorted in place) and the state after the commit; it throws when
   * `fetchApi` did or when the body is `undefined`.
   */
  function AfterFetch(s: StoreState, env: Result<ApiResponse, string>): Result<(ApiResponse, StoreState), string>
  {
    if env.Failure? then Failure(env.error)
    else if env.value.data.Undefined? then Failure("TypeError: cannot read properties of undefined (reading 'type')")
    else
      var response := env.value.(data := Prepared(env.value.data));
      Success((response, Commit(s, response.data)))
  }

  // ---------------------------------------------------------------------
  // Properties of the transitions

  /** Every mutation keeps pages and data under their url and lists under their name. */
  lemma CommitKeepsKeyed(s: StoreState, b: Body)
    requires Keyed(s)
    ensures Keyed(Commit(s, b))
  {
  }

  /**
   * What FETCH_API's switch caches: a page under its url, an entry under
   * its url, a list under its name (with its url and `pageMap` entries);
   * nothing else is touched, and any other body changes nothing.
   */
  lemma CommitCaches(s: StoreState, b: Body)
    ensures var r := Commit(s, b);
      && (forall u :: u in r.pages <==> u in s.pages || (b.PageBody? && b.page.url == u))
      && (b.PageBody? ==> r.pages[b.page.url] == b.page)
      && (forall u :: u in r.data <==> u in s.data || (b.DataBody? && b.entry.url == u))
      && (b.DataBody? ==> r.data[b.entry.url] == b.entry)
      && (forall n :: n in r.lists <==> n in s.lists || (b.ListBody? && b.list.name == n))
      && (b.ListBody? ==> r.lists[b.list.name] == b.list && r.listsByUrl[b.list.url] == b.list.name)
      && (!b.ListBody? ==> r.listsByUrl == s.listsByUrl && r.pageMap == s.pageMap)
      && r.currentPage == s.currentPage && r.currentList == s.currentList
      && (b.Other? || b.Undefined? ==> r == s)
      && (!b.PageBody? ==> r.pages == s.pages)
      && (!b.DataBody? ==> r.data == s.data)
      && (!b.ListBody? ==> r.lists == s.lists)
      && (forall u :: u in s.pages && !(b.PageBody? && u == b.page.url) ==> r.pages[u] == s.pages[u])
      && (forall u :: u in s.data && !(b.DataBody? && u == b.entry.url) ==> r.data[u] == s.data[u])
      && (forall n :: n in s.lists && !(b.ListBody? && n == b.list.name) ==> r.lists[n] == s.lists[n])
      && (forall u :: u in s.listsByUrl && !(b.ListBody? && u == b.list.url) ==> r.listsByUrl[u] == s.listsByUrl[u])
  {
  }

  /**
   * FETCH_API throws, leaving the state alone, iff `fetchApi` threw or the
   * body is undefined. A url not cached before is cached afterwards iff the
   * body is a page whose own `url` is that url: a page served under another
   * url is cached there, so USE_PAGE of the requested url fetches it again.
   */
  lemma FetchCachesServedUrl(s: StoreState, env: Result<ApiResponse, string>, url: string)
    ensures AfterFetch(s, env).Failure? <==> env.Failure? || env.value.data.Undefined?
    ensures AfterFetch(s, env).Failure? ==> StateOf(s, AfterFetch(s, env)) == s
    ensures url in StateOf(s, AfterFetch(s, env)).pages <==>
      url in s.pages || (env.Success? && env.value.data.PageBody? && env.value.data.page.url == url)
  {
    if env.Success? && !env.value.data.Undefined? {
      CommitCaches(s, Prepared(env.value.data));
    }
  }

  /** `page(url)` after ADD_OR_UPDATE_PAGE: the new page at its url, the old answer elsewhere. */
  lemma PageOfAddPage(s: StoreState, page: Page, url: string)
    ensures PageOf(AddPage(s, page), url) == if url == page.url then page else PageOf(s, url)
  {
  }

  /** `page(url)` after REMOVE_PAGE: the sentinel at the removed url, the old answer elsewhere. */
  lemma PageOfDropPage(s: StoreState, removed: string, url: string)
    ensures PageOf(DropPage(s, removed), url) == if url == removed then EmptyItem else PageOf(s, url)
  {
  }

  /** `data(url)` after ADD_OR_UPDATE_DATA: the new payload (or `{}`) at its url, the old answer elsewhere. */
  lemma DataOfAddData(s: StoreState, entry: DataEntry, url: string)
    ensures DataOf(AddData(s, entry), url) ==
      if url == entry.url then (if entry.data.Some? then entry.data.value else map[]) else DataOf(s, url)
  {
  }

  /** Neither getter sees a list being added. */
  lemma GettersIgnoreAddList(s: StoreState, list: PageList, url: string)
    ensures PageOf(AddList(s, list), url) == PageOf(s, url)
    ensures DataOf(AddList(s, list), url) == DataOf(s, url)
  {
  }

  lemma RemoveKeepsKeyed(s: StoreState, url: string, name: string)
    requires Keyed(s)
    ensures Keyed(DropPage(s, url))
    ensures DropList(s, name).Success? ==> Keyed(DropList(s, name).value)
  {
  }

  /** A list named `pages` is stored in key order, with the pages it was served with. */
  lemma FetchedPagesListSorted(s: StoreState, env: Result<ApiResponse, string>)
    requires env.Success? && env.value.data.ListBody? && env.value.data.list.name == "pages"
    ensures AfterFetch(s, env).Success?
    ensures var t := AfterFetch(s, env).value.1;
      "pages" in t.lists
      && Ordered(t.lists["pages"].data)
      && multiset(t.lists["pages"].data) == multiset(env.value.data.list.data)
  {
    SortPagesOrdered(env.value.data.list.data);
  }

  /** A list whose pages all have distinct urls. */
  predicate DistinctUrls(d: seq<Page>)
  {
    forall i, j :: 0 <= i < j < |d| ==> d[i].url != d[j].url
  }

  /** `pageMap` points every page of the list `name` at its own place in that list. */
  predicate Indexes(s: StoreState, name: string)
  {
    && name in s.lists
    && forall i :: 0 <= i < |s.lists[name].data| ==>
         var u := s.lists[name].data[i].url;
         u in s.pageMap && s.pageMap[u] == Loc(name, i)
  }

  /** Adding a list whose pages have distinct urls makes `pageMap` index it. */
  lemma AddListIndexes(s: StoreState, list: PageList)
    requires DistinctUrls(list.data)
    ensures Indexes(AddList(s, list), list.name)
  {
    AddListIndexesPages(s, list);
    var t := AddList(s, list);
    forall i | 0 <= i < |list.data|
      ensures list.data[i].url in t.pageMap && t.pageMap[list.data[i].url] == Loc(list.name, i)
    {
      var u := list.data[i].url;
      assert u in UrlsOf(list.data);
      assert IsLastIndex(list.data, u, t.pageMap[u].index);
    }
  }

  /** Caching a page or a data entry keeps every list indexed. */
  lemma CommitKeepsIndexes(s: StoreState, name: string, b: Body)
    requires Indexes(s, name) && !b.ListBody?
    ensures Indexes(Commit(s, b), name)
  {
  }

  /**
   * In an indexed list, `next` and `previous` of its `i`-th page are its
   * neighbours in the list, or the sentinel at either end.
   */
  lemma NeighboursInIndexedList(s: StoreState, name: string, i: nat)
    requires Indexes(s, name) && i < |s.lists[name].data|
    requires s.currentPage == Some(s.lists[name].data[i].url)
    ensures Next(s) == Success(Neighbour(s.lists[name].data, i + 1))
    ensures Previous(s) == Success(Neighbour(s.lists[name].data, i - 1))
  {
  }

  /**
   * Once a list of distinct pages is added and one of its pages made
   * current, `next` and `previous` are that page's neighbours.
   */
  lemma NeighboursAfterAddList(s: StoreState, list: PageList, i: nat)
    requires DistinctUrls(list.data) && i < |list.data|
    ensures var t := AddList(s, list).(currentPage := Some(list.data[i].url));
      && Next(t) == Success(Neighbour(list.data, i + 1))
      && Previous(t) == Success(Neighbour(list.data, i - 1))
  {
    AddListIndexes(s, list);
    NeighboursInIndexedList(AddList(s, list).(currentPage := Some(list.data[i].url)), list.name, i);
  }

  /** In an indexed list, moving to `next` and then taking `previous` leads back. */
  lemma NextThenPrevious(s: StoreState, name: string, i: nat)
    requires Indexes(s, name) && i + 1 < |s.lists[name].data|
    requires s.currentPage == Some(s.lists[name].data[i].url)
    ensures Next(s).Success?
    ensures Previous(s.(currentPage := Some(Next(s).value.url))) == Success(s.lists[name].data[i])
  {
    NeighboursInIndexedList(s, name, i);
    NeighboursInIndexedList(s.(currentPage := Some(s.lists[name].data[i + 1].url)), name, i + 1);
  }

  /**
   * REMOVE_PAGE does not clear the current page: removing it leaves
   * `current` undefined, and `next` and `previous` fall back to the sentinel.
   */
  lemma RemovePageLeavesCurrentDangling(s: StoreState)
    requires Truthy(s.currentPage)
    ensures Current(DropPage(s, s.currentPage.value)) == None
    ensures Next(DropPage(s, s.currentPage.value)) == Success(EmptyItem)
    ensures Previous(DropPage(s, s.currentPage.value)) == Success(EmptyItem)
  {
  }

  /** A current list name with no cached list shows as `undefined`. */
  lemma UncachedCurrentListUndefined(s: StoreState, name: string)
    requires name != "" && name !in s.lists
    ensures CurrentList(s.(currentList := Some(name))) == ShownUndefined
  {
  }

  /**
   * REMOVE_LIST leaves the `pageMap` entries that point at the removed
   * list, so `next` and `previous` of a current page in that list throw.
   */
  lemma RemoveListStrandsCurrentPage(s: StoreState, name: string)
    requires name in s.lists && CurrentLoc(s).Some? && CurrentLoc(s).value.list == name
    ensures DropList(s, name).Success?
    ensures DropList(s, name).value.pageMap == s.pageMap
    ensures Next(DropList(s, name).value).Failure? && Previous(DropList(s, name).value).Failure?
  {
  }

  // ---------------------------------------------------------------------
  // Replies of the actions

  /** What an action resolves to: `{data}` built locally, or FETCH_API's response. */
  datatype Reply = Local(body: Body) | Remote(response: ApiResponse)
  {
    function Data(): Body
    {
      match this
      case Local(b) => b
      case Remote(r) => r.data
    }
  }

  /** FETCH_API's outcome as an action's reply. */
  function ReplyOf(f: Result<(ApiResponse, StoreState), string>): Result<Reply, string>
  {
    if f.Success? then Success(Remote(f.value.0)) else Failure(f.error)
  }

  /** The state FETCH_API leaves: the committed one, or the old one when it threw. */
  function StateOf(s: StoreState, f: Result<(ApiResponse, StoreState), string>): StoreState
  {
    if f.Success? then f.value.1 else s
  }

  /**
   * `page && Object.keys(page).length >= 1`: a page, a data entry or a list
   * always has keys, `undefined` never counts, and any other object counts
   * iff it has a key.
   */
  predicate HasContent(b: Body)
    ensures b.PageBody? || b.DataBody? || b.ListBody? ==> HasContent(b)
    ensures b.Undefined? ==> !HasContent(b)
    ensures b.Other? ==> (HasContent(b) <==> b.keys != {})
  {
    !b.Undefined? && (b.Other? ==> b.keys != {})
  }

  /** The object key an `undefined`-able name reads. */
  function AsKey(name: Option<string>): string
  {
    if name.Some? then name.value else "undefined"
  }

  /** The `collection` of a reply's data: set only for a page that has one. */
  function CollectionOf(b: Body): Option<string>
  {
    if b.PageBody? then b.page.collection else None
  }

  /** The `name` of a reply's data: set only for a list. */
  function NameOf(b: Body): Option<string>
  {
    if b.ListBody? then Some(b.list.name) else None
  }

  // ---------------------------------------------------------------------
  // The store

  class Store {
    /** The base url assembled from protocol, host and port (see ApiClient.BaseUrl). */
    const apiBase: string
    /** The site's configured collections. */
    const collections: map<string, Collection>

    var pages: map<string, Page>
    var data: map<string, DataEntry>
    var lists: map<string, PageList>
    var listsByUrl: map<string, string>
    var pageMap: map<string, Loc>
    var currentPage: Option<string>
    var currentList: Option<string>

    /** Every url requested from the server so far, in order. */
    ghost var requests: seq<string>

    function State(): StoreState
      reads this
    {
      StoreState(pages, data, lists, listsByUrl, pageMap, currentPage, currentList)
    }

    ghost predicate Valid()
      reads this
    {
      Keyed(State())
    }

    constructor(apiBase: string, collections: map<string, Collection>)
      ensures Valid() && State() == Initial && requests == []
      ensures this.apiBase == apiBase && this.collections == collections
    {
      this.apiBase := apiBase;
      this.collections := collections;
      pages, data, lists, listsByUrl, pageMap := map[], map[], map[], map[], map[];
      currentPage, currentList := None, None;
      requests := [];
    }

    // --- mutations

    method AddOrUpdateData(entry: DataEntry)
      requires Valid()
      modifies this`data
      ensures Valid()
      ensures State() == AddData(old(State()), entry)
    {
      data := data[entry.url := entry];
    }

    method AddOrUpdatePage(page: Page)
      requires Valid()
      modifies this`pages
      ensures Valid()
      ensures State() == AddPage(old(State()), page)
    {
      pages := pages[page.url := page];
    }

    method AddOrUpdateList(list: PageList)
      requires Valid()
      modifies this`lists, this`listsByUrl, this`pageMap
      ensures Valid()
      ensures State() == AddList(old(State()), list)
    {
      lists := lists[list.name := list];
      listsByUrl := listsByUrl[list.url := list.name];
      ghost var before := pageMap;
      ghost var lists1, listsByUrl1 := lists, listsByUrl;
      var i := 0;
      while i < |list.data|
        invariant 0 <= i <= |list.data|
        invariant lists == lists1 && listsByUrl == listsByUrl1
        invariant pageMap == before + ListIndex(list.name, list.data[..i])
      {
        ListIndexStep(list.name, list.data, i);
        pageMap := pageMap[list.data[i].url := Loc(list.name, i)];
        i := i + 1;
      }
      assert list.data[..i] == list.data;
      assert State() == AddList(old(State()), list);
      CommitKeepsKeyed(old(State()), ListBody(list));
    }

    method RemovePage(url: string)
      requires Valid()
      modifies this`pages, this`pageMap
      ensures Valid()
      ensures State() == DropPage(old(State()), url)
    {
      pages := pages - {url};
      pageMap := pageMap - {url};
    }

    method RemoveList(name: string) returns (r: Result<(), string>)
      requires Valid()
      modifies this`lists, this`listsByUrl
      ensures Valid()
      ensures r.Success? <==> DropList(old(State()), name).Success?
      ensures r.Success? ==> State() == DropList(old(State()), name).value
      ensures r.Failure? ==> State() == old(State())
    {
      if name !in lists {
        return Failure("TypeError: cannot read properties of undefined (reading 'url')");
      }
      var url := lists[name].url;
      lists := lists - {name};
      listsByUrl := listsByUrl - {url};
      r := Success(());
    }

    method SetCurrentPage(url: string)
      modifies this`currentPage
      ensures State() == old(State()).(currentPage := Some(url))
    {
      currentPage := Some(url);
    }

    method SetCurrentList(name: Option<string>)
      modifies this`currentList
      ensures State() == old(State()).(currentList := name)
    {
      currentList := name;
    }

    // --- actions

    /**
     * FETCH_API: always requests the server, then commits what the body's
     * type says.
     */
    method FetchApi(url: string, kind: string, server: string -> HttpOutcome) returns (r: Result<ApiResponse, string>)
      requires Valid()
      modifies this`pages, this`data, this`lists, this`listsByUrl, this`pageMap, this`requests
      ensures Valid()
      ensures requests == old(requests) + [RequestUrl(apiBase, url, kind)]
      ensures var f := AfterFetch(old(State()), ApiClient.FetchApi(apiBase, url, kind, server));
        && (f.Success? ==> r == Success(f.value.0))
        && (f.Failure? ==> r == Failure(f.error))
        && State() == StateOf(old(State()), f)
    {
      requests := requests + [RequestUrl(apiBase, url, kind)];
      var env := ApiClient.FetchApi(apiBase, url, kind, server);
      if env.Failure? {
        return Failure(env.error);
      }
      var response := env.value;
      match response.data {
        case Undefined =>
          r := Failure("TypeError: cannot read properties of undefined (reading 'type')");
        case PageBody(p) =>
          AddOrUpdatePage(p);
          r := Success(response);
        case DataBody(e) =>
          AddOrUpdateData(e);
          r := Success(response);
        case ListBody(l) =>
          var list := if l.name == "pages" then l.(data := SortPages(l.data)) else l;
          AddOrUpdateList(list);
          r := Success(response.(data := ListBody(list)));
        case Other(_) =>
          r := Success(response);
      }
    }

    /** USE_PAGE: the cached page without a request, else FETCH_API as a page. */
    method UsePage(url: string, server: string -> HttpOutcome) returns (r: Result<Reply, string>)
      requires Valid()
      modifies this`pages, this`data, this`lists, this`listsByUrl, this`pageMap, this`requests
      ensures Valid()
      ensures url in old(pages) ==>
        r == Success(Local(PageBody(old(pages)[url]))) && requests == old(requests) && State() == old(State())
      ensures url !in old(pages) ==>
        var f := AfterFetch(old(State()), ApiClient.FetchApi(apiBase, url, "page", server));
        requests == old(requests) + [RequestUrl(apiBase, url, "page")] && r == ReplyOf(f) && State() == StateOf(old(State()), f)
      ensures url !in old(pages) ==>
        (url in pages <==> r.Success? && r.value.Data().PageBody? && r.value.Data().page.url == url)
    {
      if url in pages {
        return Success(Local(PageBody(pages[url])));
      }
      FetchCachesServedUrl(State(), ApiClient.FetchApi(apiBase, url, "page", server), url);
      var res := FetchApi(url, "page", server);
      r := if res.Success? then Success(Remote(res.value)) else Failure(res.error);
    }

    /** USE_DATA: the cached entry without a request, else FETCH_API as data. */
    method UseData(url: string, server: string -> HttpOutcome) returns (r: Result<Reply, string>)
      requires Valid()
      modifies this`pages, this`data, this`lists, this`listsByUrl, this`pageMap, this`requests
      ensures Valid()
      ensures url in old(data) ==>
        r == Success(Local(DataBody(old(data)[url]))) && requests == old(requests) && State() == old(State())
      ensures url !in old(data) ==>
        var f := AfterFetch(old(State()), ApiClient.FetchApi(apiBase, url, "data", server));
        requests == old(requests) + [RequestUrl(apiBase, url, "data")] && r == ReplyOf(f) && State() == StateOf(old(State()), f)
    {
      if url in data {
        return Success(Local(DataBody(data[url])));
      }
      var res := FetchApi(url, "data", server);
      r := if res.Success? then Success(Remote(res.value)) else Failure(res.error);
    }

    /**
     * USE_LIST: when `listsByUrl` names a list for the url, that list
     * (`undefined` if it has since been removed) without a request; else
     * FETCH_API with the given type.
     */
    method UseList(url: string, kind: string, server: string -> HttpOutcome) returns (r: Result<Reply, string>)
      requires Valid()
      modifies this`pages, this`data, this`lists, this`listsByUrl, this`pageMap, this`requests
      ensures Valid()
      ensures Truthy(if url in old(listsByUrl) then Some(old(listsByUrl)[url]) else None) ==>
        var name := old(listsByUrl)[url];
        && r == Success(Local(if name in old(lists) then ListBody(old(lists)[name]) else Undefined))
        && requests == old(requests) && State() == old(State())
      ensures !Truthy(if url in old(listsByUrl) then Some(old(listsByUrl)[url]) else None) ==>
        var f := AfterFetch(old(State()), ApiClient.FetchApi(apiBase, url, kind, server));
        requests == old(requests) + [RequestUrl(apiBase, url, kind)] && r == ReplyOf(f) && State() == StateOf(old(State()), f)
    {
      if url in listsByUrl && listsByUrl[url] != "" {
        var name := listsByUrl[url];
        return Success(Local(if name in lists then ListBody(lists[name]) else Undefined));
      }
      var res := FetchApi(url, kind, server);
      r := if res.Success? then Success(Remote(res.value)) else Failure(res.error);
    }

    /** The collection is configured with a (non-empty) list url. */
    predicate Configured(collection: string)
    {
      collection in collections && Truthy(collections[collection].list)
    }

    /**
     * What USE_COLLECTION answers without a request: the cached list of
     * that name, or `{}` for a collection not configured with a list.
     */
    function CollectionHit(s: StoreState, collection: string): Option<Body>
    {
      if collection in s.lists then Some(ListBody(s.lists[collection]))
      else if !Configured(collection) then Some(Other({}))
      else None
    }

    /** The request USE_COLLECTION makes for a configured collection. */
    function CollectionFetch(s: StoreState, collection: string, server: string -> HttpOutcome): Result<(ApiResponse, StoreState), string>
      requires Configured(collection)
    {
      var c := collections[collection];
      AfterFetch(s, ApiClient.FetchApi(apiBase, c.list.value, c.kind, server))
    }

    /**
     * USE_COLLECTION: the cached list of that name or `{}` without a
     * request; else FETCH_API for the collection's list url and type.
     */
    method UseCollection(collection: string, server: string -> HttpOutcome) returns (r: Result<Reply, string>)
      requires Valid()
      modifies this`pages, this`data, this`lists, this`listsByUrl, this`pageMap, this`requests
      ensures Valid()
      ensures CollectionHit(old(State()), collection).Some? ==>
        && r == Success(Local(CollectionHit(old(State()), collection).value))
        && requests == old(requests) && State() == old(State())
      ensures CollectionHit(old(State()), collection).None? ==>
        var c := collections[collection];
        var f := CollectionFetch(old(State()), collection, server);
        requests == old(requests) + [RequestUrl(apiBase, c.list.value, c.kind)] && r == ReplyOf(f) && State() == StateOf(old(State()), f)
    {
      if collection in lists {
        return Success(Local(ListBody(lists[collection])));
      }
      if !Configured(collection) {
        return Success(Local(Other({})));
      }
      var c := collections[collection];
      var res := FetchApi(c.list.value, c.kind, server);
      r := if res.Success? then Success(Remote(res.value)) else Failure(res.error);
    }

    /**
     * USE_COLLECTION_AS_CURRENT: USE_COLLECTION (an `undefined` name reads
     * the key "undefined"), then the name becomes the current list, since
     * what USE_COLLECTION resolves to is never `undefined`.
     */
    method UseCollectionAsCurrent(name: Option<string>, server: string -> HttpOutcome) returns (r: Result<Reply, string>)
      requires Valid()
      modifies this`pages, this`data, this`lists, this`listsByUrl, this`pageMap, this`requests, this`currentList
      ensures Valid()
      ensures r.Success? ==> r.value.Data() != Undefined
      ensures var hit := CollectionHit(old(State()), AsKey(name));
        hit.Some? ==>
          && r == Success(Local(hit.value))
          && requests == old(requests) && State() == old(State()).(currentList := name)
      ensures var key := AsKey(name);
        CollectionHit(old(State()), key).None? ==>
          var c := collections[key];
          var f := CollectionFetch(old(State()), key, server);
          && requests == old(requests) + [RequestUrl(apiBase, c.list.value, c.kind)]
          && r == ReplyOf(f)
          && State() == (if f.Success? then f.value.1.(currentList := name) else old(State()))
    {
      r := UseCollection(AsKey(name), server);
      if r.Success? && r.value.Data() != Undefined {
        SetCurrentList(name);
      }
    }

    /**
     * USE_PAGE_AS_CURRENT: USE_PAGE; when the page it resolved to has
     * content, the url becomes the current page and the page's collection
     * is made the current list (a call whose failure does not reach the
     * caller).
     */
    method UsePageAsCurrent(url: string, server: string -> HttpOutcome) returns (r: Result<Reply, string>)
      requires Valid()
      modifies this`pages, this`data, this`lists, this`listsByUrl, this`pageMap, this`requests, this`currentPage, this`currentList
      ensures Valid()
      ensures old(requests) <= requests
      ensures url in old(pages) ==> r == Success(Local(PageBody(old(pages)[url])))
      ensures url !in old(pages) ==>
        && r == ReplyOf(AfterFetch(old(State()), ApiClient.FetchApi(apiBase, url, "page", server)))
        && |requests| > |old(requests)| && requests[|old(requests)|] == RequestUrl(apiBase, url, "page")
      ensures r.Success? && HasContent(r.value.Data()) ==> currentPage == Some(url)
      ensures !(r.Success? && HasContent(r.value.Data())) ==>
        currentPage == old(currentPage) && currentList == old(currentList)
      ensures url in old(pages) && CollectionHit(old(State()), AsKey(old(pages)[url].collection)).Some? ==>
        && requests == old(requests)
        && State() == old(State()).(currentPage := Some(url), currentList := old(pages)[url].collection)
    {
      r := UsePage(url, server);
      if r.Failure? || !HasContent(r.value.Data()) {
        return;
      }
      SetCurrentPage(url);
      var chained := UseCollectionAsCurrent(CollectionOf(r.value.Data()), server);
    }

    /**
     * USE_PAGE_LIST_AS_CURRENT: USE_LIST as pages, then the current list
     * becomes the resolved list's name (`undefined` when what it resolved
     * to is not a list) unless it resolved to `undefined`.
     */
    method UsePageListAsCurrent(url: string, server: string -> HttpOutcome) returns (r: Result<Reply, string>)
      requires Valid()
      modifies this`pages, this`data, this`lists, this`listsByUrl, this`pageMap, this`requests, this`currentList
      ensures Valid()
      ensures var hit := if url in old(listsByUrl) then Some(old(listsByUrl)[url]) else None;
        Truthy(hit) ==>
          var name := hit.value;
          && requests == old(requests)
          && r == Success(Local(if name in old(lists) then ListBody(old(lists)[name]) else Undefined))
          && State() == (if name in old(lists) then old(State()).(currentList := Some(name)) else old(State()))
      ensures !Truthy(if url in old(listsByUrl) then Some(old(listsByUrl)[url]) else None) ==>
        var f := AfterFetch(old(State()), ApiClient.FetchApi(apiBase, url, "page", server));
        && requests == old(requests) + [RequestUrl(apiBase, url, "page")]
        && r == ReplyOf(f)
        && State() == (if f.Success? then f.value.1.(currentList := NameOf(f.value.0.data)) else old(State()))
    {
      r := UseList(url, "page", server);
      if r.Success? && r.value.Data() != Undefined {
        SetCurrentList(NameOf(r.value.Data()));
      }
    }
  }
}
