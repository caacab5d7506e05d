/**
 * The result record of one fetch attempt (src/models/Page.js). Every field is
 * assigned once by the constructor and only read afterwards, so a page is a value.
 * JavaScript `null`/`undefined` arguments are `None`.
 */
module Pages {
  import opened Wrappers

  /** A page as built by the constructor; `links` is never absent. */
  datatype Page = Page(
    pageErr: Option<string>,
    url: string,
    statusCode: Option<int>,
    requestTime: Option<int>,
    links: seq<string>,
    pageSize: Option<int>)

  /** A plain object with the six fields, as the store gives it back; `links` may be absent. */
  datatype PageObject = PageObject(
    pageErr: Option<string>,
    url: string,
    statusCode: Option<int>,
    requestTime: Option<int>,
    links: Option<seq<string>>,
    pageSize: Option<int>)

  /** JavaScript truthiness of `pageErr`: present and not the empty string. */
  predicate HasError(p: Page) {
    p.pageErr.Some? && p.pageErr.value != ""
  }

  /** JavaScript truthiness of a status code: present and not 0. */
  predicate HasStatusCode(p: Page) {
    p.statusCode.Some? && p.statusCode.value != 0
  }

  /** The constructor: a falsy `links` argument becomes the empty list. */
  function NewPage(pageErr: Option<string>, url: string, statusCode: Option<int>,
                   requestTime: Option<int>, links: Option<seq<string>>, pageSize: Option<int>): (p: Page)
    ensures p.pageErr == pageErr && p.url == url && p.statusCode == statusCode
    ensures p.requestTime == requestTime && p.pageSize == pageSize
    ensures links.Some? ==> p.links == links.value
    ensures links.None? ==> p.links == []
  {
    Page(pageErr, url, statusCode, requestTime, links.GetOr([]), pageSize)
  }

  /** The page the fetcher builds on failure: `new Page(error, url, statusCode)`. */
  function ErrorPage(err: string, url: string, statusCode: Option<int>): (p: Page)
    ensures p.links == [] && p.requestTime.None? && p.pageSize.None?
    ensures p.pageErr == Some(err) && p.url == url && p.statusCode == statusCode
  {
    NewPage(Some(err), url, statusCode, None, None, None)
  }

  /**
   * `createNewPageFromObject`: the constructor applied to the object's six fields, so
   * the page keeps five of them as they are and an absent `links` becomes `[]`.
   */
  function CreateNewPageFromObject(o: PageObject): (p: Page)
    ensures p.pageErr == o.pageErr && p.url == o.url && p.statusCode == o.statusCode
    ensures p.requestTime == o.requestTime && p.pageSize == o.pageSize
    ensures p.links == (if o.links.Some? then o.links.value else [])
    ensures HasError(p) <==> o.pageErr.Some? && o.pageErr.value != ""
  {
    NewPage(o.pageErr, o.url, o.statusCode, o.requestTime, o.links, o.pageSize)
  }

  /** The plain object a page becomes in the store. */
  function ToObject(p: Page): (o: PageObject)
    ensures o.links == Some(p.links)
  {
    PageObject(p.pageErr, p.url, p.statusCode, p.requestTime, Some(p.links), p.pageSize)
  }

  /** Rebuilding a page from its own fields yields an equal page. */
  lemma RebuildFromObject(p: Page)
    ensures CreateNewPageFromObject(ToObject(p)) == p
  {
  }

  /** Rebuilding from an object keeps every field; only an absent `links` changes, to `[]`. */
  lemma ObjectRoundTrip(o: PageObject)
    ensures ToObject(CreateNewPageFromObject(o)) == o <==> o.links.Some?
  {
  }
}
