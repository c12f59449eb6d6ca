/** The records the wiki's REST API returns and the request strings built
    from them (dump.js). */
module Content {
  import opened Wrappers
  import opened Pagination

  /** One search result: its display title, its page URL relative to the
      base URL, its content id, and the link of its space
      (`content._expandable.space`, such as "/rest/api/space/DOCS"). */
  datatype ContentItem = ContentItem(title: string, url: string, id: string, spaceLink: string)

  /** One attachment record: its file name and its download link relative
      to the base URL. */
  datatype Attachment = Attachment(title: string, download: string)

  /** The search endpoint under `baseUrl`. */
  function SearchUrl(baseUrl: string): string {
    baseUrl + "/rest/api/search"
  }

  /** The attachment-listing endpoint of the page with content id `id`. */
  function AttachmentsUrl(baseUrl: string, id: string): string {
    baseUrl + "/rest/api/content/" + id + "/child/attachment"
  }

  /** The query that finds the direct children of `root`. */
  function ChildCql(root: ContentItem): string {
    "parent = " + root.id
  }

  /** The first request of a search for `cql`. */
  function SearchQuery(baseUrl: string, cql: string): Query {
    Query(SearchUrl(baseUrl), Some(cql), None, None)
  }

  /** The first request listing the attachments of `page`. */
  function AttachmentQuery(baseUrl: string, page: ContentItem): Query {
    Query(AttachmentsUrl(baseUrl, page.id), None, None, None)
  }

  /** What `paginated_fetch` as written settles to for the first request
      `q`; running out of the request budget is read as no value. */
  function FetchedAsWritten<T>(serve: Query -> Response<T>, q: Query, fuel: nat): Option<seq<T>> {
    match PaginatedFetch(serve, SizeIsZero, SourceDefaultStart, q, [], fuel).outcome
    case Returned(v) => v
    case OutOfFuel => None
  }

  /** The search oracle the queueing loops consume, as the code computes it
      from the server's responses. */
  function SearchAsWritten(serve: Query -> Response<ContentItem>, baseUrl: string, fuel: nat)
    : string -> Option<seq<ContentItem>>
  {
    cql => FetchedAsWritten(serve, SearchQuery(baseUrl, cql), fuel)
  }

  /** A search as written sends one request, `GET <base>/rest/api/search`
      with the cql and `limit=25` and no `start`, and yields exactly that
      one page's results, or no value when it failed. */
  lemma AsWrittenSearchOnePage(serve: Query -> Response<ContentItem>, baseUrl: string, cql: string, fuel: nat)
    requires fuel > 0
    ensures var q := WithPageSize(SearchQuery(baseUrl, cql));
      var response := serve(q);
      && q == Query(baseUrl + "/rest/api/search", Some(cql), None, Some(PageSize))
      && SearchAsWritten(serve, baseUrl, fuel)(cql)
         == if Succeeded(response) then Some(response.body.value.results) else None
  {
    var q := WithPageSize(SearchQuery(baseUrl, cql));
    AsWrittenSingleRequest(serve, SearchQuery(baseUrl, cql), [], fuel);
    if Succeeded(serve(q)) {
      assert [] + serve(q).body.value.results == serve(q).body.value.results;
    }
  }

  /** An attachment listing as written sends one request to the page's
      attachment endpoint with `limit=25` and no cql or `start`, and
      yields exactly that page's results, or no value when it failed. */
  lemma AsWrittenListingOnePage(serve: Query -> Response<Attachment>, baseUrl: string, page: ContentItem, fuel: nat)
    requires fuel > 0
    ensures var q := WithPageSize(AttachmentQuery(baseUrl, page));
      var response := serve(q);
      && q == Query(baseUrl + "/rest/api/content/" + page.id + "/child/attachment", None, None, Some(PageSize))
      && FetchedAsWritten(serve, AttachmentQuery(baseUrl, page), fuel)
         == if Succeeded(response) then Some(response.body.value.results) else None
  {
    var q := WithPageSize(AttachmentQuery(baseUrl, page));
    AsWrittenSingleRequest(serve, AttachmentQuery(baseUrl, page), [], fuel);
    if Succeeded(serve(q)) {
      assert [] + serve(q).body.value.results == serve(q).body.value.results;
    }
  }
}
