/**
 * The JSON resources the blog API serves and the store caches: pages,
 * data entries and page lists, and the response bodies that carry them.
 */
module Resources {
  import opened Outcomes

  /**
   * A page: its url, the optional `order` used when sorting lists, its
   * front matter, its body text, its file extension and the collection it
   * belongs to. `empty` is set only on the store's sentinel item.
   */
  datatype Page = Page(
    url: string,
    order: Option<int>,
    matter: map<string, string>,
    data: Option<string>,
    ext: Option<string>,
    collection: Option<string>,
    empty: bool)

  /** The sentinel `{url: '', matter: {}, empty: true}` the getters fall back to. */
  const EmptyItem: Page := Page("", None, map[], None, None, None, true)

  /** A non-page JSON resource, keyed by its url; `data` is its payload object. */
  datatype DataEntry = DataEntry(url: string, data: Option<map<string, string>>)

  /** A named, ordered list of pages, served at `url`. */
  datatype PageList = PageList(name: string, url: string, data: seq<Page>)

  /** Where a page sits: the name of a list and its index in that list. */
  datatype Loc = Loc(list: string, index: nat)

  /**
   * A response body as the store sees it, classified by its `type` field:
   * a page, a data entry, a list, any other JSON object (given by its own
   * keys; `{}` is `Other({})`), or `undefined`.
   */
  datatype Body =
    | PageBody(page: Page)
    | DataBody(entry: DataEntry)
    | ListBody(list: PageList)
    | Other(keys: set<string>)
    | Undefined

  /** JavaScript truthiness of an optional string: present and not `''`. */
  predicate Truthy(v: Option<string>)
  {
    v.Some? && v.value != ""
  }
}
