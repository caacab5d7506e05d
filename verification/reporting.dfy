/**
 * The post-crawl report (src/services/reportingService.js): the stored results are
 * rebuilt into pages, split into working and failed pages by the truthiness of
 * `pageErr`, and summarised by truncating averages, internal/external link totals and
 * a histogram of the failed pages' status codes. JavaScript `NaN` is `None`.
 */
module Reporting {
  import opened Wrappers
  import opened Urls
  import opened Pages
  import opened LocalStorage
  import opened TaskService

  /** `getWorkingPages`: the pages without an error, in input order. */
  function WorkingPages(pages: seq<Page>): (w: seq<Page>)
    ensures forall p :: p in w <==> p in pages && !HasError(p)
    ensures |w| <= |pages|
  {
    if pages == [] then []
    else (if !HasError(pages[0]) then [pages[0]] else []) + WorkingPages(pages[1..])
  }

  /** `getFailedPages`: the pages with an error, in input order. */
  function FailedPages(pages: seq<Page>): (f: seq<Page>)
    ensures forall p :: p in f <==> p in pages && HasError(p)
    ensures |f| <= |pages|
  {
    if pages == [] then []
    else (if HasError(pages[0]) then [pages[0]] else []) + FailedPages(pages[1..])
  }

  /** The two filters split the pages: every page lands in exactly one of them. */
  lemma {:induction false} WorkingAndFailedPartition(pages: seq<Page>)
    ensures multiset(WorkingPages(pages)) + multiset(FailedPages(pages)) == multiset(pages)
    ensures |WorkingPages(pages)| + |FailedPages(pages)| == |pages|
  {
    if pages != [] {
      WorkingAndFailedPartition(pages[1..]);
      assert pages == [pages[0]] + pages[1..];
    }
  }

  /** Both filters keep input order: filtering a concatenation filters each part. */
  lemma FiltersDistribute(a: seq<Page>, b: seq<Page>)
    ensures WorkingPages(a + b) == WorkingPages(a) + WorkingPages(b)
    ensures FailedPages(a + b) == FailedPages(a) + FailedPages(b)
  {
    WorkingDistributes(a, b);
    FailedDistributes(a, b);
  }

  lemma {:induction false} WorkingDistributes(a: seq<Page>, b: seq<Page>)
    ensures WorkingPages(a + b) == WorkingPages(a) + WorkingPages(b)
  {
    if a != [] {
      var c := a + b;
      assert c[0] == a[0] && c[1..] == a[1..] + b;
      WorkingDistributes(a[1..], b);
    } else {
      assert a + b == b;
    }
  }

  lemma {:induction false} FailedDistributes(a: seq<Page>, b: seq<Page>)
    ensures FailedPages(a + b) == FailedPages(a) + FailedPages(b)
  {
    if a != [] {
      var c := a + b;
      assert c[0] == a[0] && c[1..] == a[1..] + b;
      FailedDistributes(a[1..], b);
    } else {
      assert a + b == b;
    }
  }

  /**
   * `getAvg`: `parseInt(total / itemCount)`, the quotient truncated toward zero.
   * A missing total or no items gives `NaN`.
   */
  function Avg(total: Option<int>, itemCount: nat): (r: Option<int>)
    ensures r.Some? <==> total.Some? && itemCount > 0
    ensures r.Some? && total.value >= 0 ==>
      0 <= r.value * itemCount <= total.value < r.value * itemCount + itemCount
    ensures r.Some? && total.value < 0 ==>
      r.value * itemCount - itemCount < total.value <= r.value * itemCount <= 0
  {
    if total.None? || itemCount == 0 then None
    else if total.value >= 0 then
      TruncatedQuotient(total.value, itemCount);
      Some(total.value / itemCount)
    else
      TruncatedQuotient(-total.value, itemCount);
      Some(-((-total.value) / itemCount))
  }

  /** Euclidean division of a non-negative number is truncation, and negating the quotient negates its multiple. */
  lemma TruncatedQuotient(a: nat, n: nat)
    requires n > 0
    ensures 0 <= (a / n) * n <= a < (a / n) * n + n
    ensures (-(a / n)) * n == -((a / n) * n)
  {
  }

  /** The averages the tests expect: 100 over 2 items, and 94 links over 11 pages. */
  lemma AvgExamples()
    ensures Avg(Some(100), 2) == Some(50)
    ensures Avg(Some(94), 11) == Some(8)
    ensures Avg(Some(-7), 2) == Some(-3)
  {
  }

  /** Every summand is defined. */
  predicate AllDefined(values: seq<Option<int>>) {
    forall i :: 0 <= i < |values| ==> values[i].Some?
  }

  /** The summands of a sequence whose summands are all defined. */
  function ValuesOf(values: seq<Option<int>>): (xs: seq<int>)
    requires AllDefined(values)
    ensures |xs| == |values| && forall i :: 0 <= i < |xs| ==> values[i] == Some(xs[i])
  {
    seq(|values|, i requires 0 <= i < |values| => values[i].value)
  }

  /** The sum of the summands that `reduce` adds up, from its initial 0 on. */
  function Sum(xs: seq<int>): int {
    if xs == [] then 0 else Sum(xs[..|xs| - 1]) + xs[|xs| - 1]
  }

  /**
   * A sum over `reduce`, where one `undefined` summand makes the total `NaN`; when
   * every summand is defined, the total is their sum.
   */
  function SumDefined(values: seq<Option<int>>): (total: Option<int>)
    ensures total.Some? <==> AllDefined(values)
    ensures total.Some? ==> total.value == Sum(ValuesOf(values))
  {
    if values == [] then Some(0)
    else
      var rest := SumDefined(values[1..]);
      AllDefinedCons(values);
      if values[0].Some? && rest.Some? then
        ValuesOfCons(values);
        SumConsFront(values[0].value, ValuesOf(values[1..]));
        Some(values[0].value + rest.value)
      else None
  }

  /** All summands are defined exactly when the first one and all the others are. */
  lemma AllDefinedCons(values: seq<Option<int>>)
    requires values != []
    ensures AllDefined(values) <==> values[0].Some? && AllDefined(values[1..])
  {
    if values[0].Some? && AllDefined(values[1..]) {
      forall i | 0 <= i < |values| ensures values[i].Some? {
        if i > 0 { assert values[i] == values[1..][i - 1]; }
      }
    }
  }

  /** The summands of a non-empty sequence are its first summand followed by the others'. */
  lemma ValuesOfCons(values: seq<Option<int>>)
    requires values != [] && AllDefined(values)
    ensures AllDefined(values[1..])
    ensures ValuesOf(values) == [values[0].value] + ValuesOf(values[1..])
  {
    AllDefinedCons(values);
  }

  /** `reduce` adds from the left; a summand in front adds to the same total. */
  lemma {:induction false} SumConsFront(x: int, xs: seq<int>)
    ensures Sum([x] + xs) == x + Sum(xs)
    decreases |xs|
  {
    if xs != [] {
      var init := xs[..|xs| - 1];
      assert ([x] + xs)[..|xs|] == [x] + init;
      SumConsFront(x, init);
    }
  }

  /** The request times of the pages, `undefined` where a page has none. */
  function RequestTimes(pages: seq<Page>): (values: seq<Option<int>>)
    ensures |values| == |pages| && forall i :: 0 <= i < |pages| ==> values[i] == pages[i].requestTime
  {
    seq(|pages|, i requires 0 <= i < |pages| => pages[i].requestTime)
  }

  /** The body sizes of the pages, `undefined` where a page has none. */
  function PageSizes(pages: seq<Page>): (values: seq<Option<int>>)
    ensures |values| == |pages| && forall i :: 0 <= i < |pages| ==> values[i] == pages[i].pageSize
  {
    seq(|pages|, i requires 0 <= i < |pages| => pages[i].pageSize)
  }

  /**
   * `getAverageLoadTime`: the sum of the request times over the number of pages,
   * truncated; `NaN` for no pages or a page without one.
   */
  function AverageLoadTime(pages: seq<Page>): (r: Option<int>)
    ensures r.Some? <==> |pages| > 0 && forall i :: 0 <= i < |pages| ==> pages[i].requestTime.Some?
    ensures r.Some? ==> r == Avg(Some(Sum(ValuesOf(RequestTimes(pages)))), |pages|)
  {
    Avg(SumDefined(RequestTimes(pages)), |pages|)
  }

  /**
   * `getAveragePageSize`: the sum of the body sizes over the number of pages,
   * truncated; `NaN` for no pages or a page without one.
   */
  function AveragePageSize(pages: seq<Page>): (r: Option<int>)
    ensures r.Some? <==> |pages| > 0 && forall i :: 0 <= i < |pages| ==> pages[i].pageSize.Some?
    ensures r.Some? ==> r == Avg(Some(Sum(ValuesOf(PageSizes(pages)))), |pages|)
  {
    Avg(SumDefined(PageSizes(pages)), |pages|)
  }

  /** Two pages loading in 100 ms and 201 ms average 150 ms. */
  lemma AverageLoadTimeExample(p: Page, q: Page)
    requires p.requestTime == Some(100) && q.requestTime == Some(201)
    ensures AverageLoadTime([p, q]) == Some(150)
  {
    var values := RequestTimes([p, q]);
    assert ValuesOf(values) == [100, 201];
    assert Sum([100, 201]) == 301 by {
      assert [100, 201][..1] == [100];
      assert [100][..0] == [];
    }
  }

  /** The number of links over all pages. */
  function TotalLinks(pages: seq<Page>): (n: nat)
    ensures forall i :: 0 <= i < |pages| ==> |pages[i].links| <= n
  {
    if pages == [] then 0 else |pages[0].links| + TotalLinks(pages[1..])
  }

  /** `getAverageLinksOnPage`: links per page, truncated; `NaN` for no pages. */
  function AverageLinksOnPage(pages: seq<Page>): (r: Option<int>)
    ensures r.Some? <==> |pages| > 0
    ensures r.Some? ==> 0 <= r.value * |pages| <= TotalLinks(pages) < r.value * |pages| + |pages|
  {
    Avg(Some(TotalLinks(pages)), |pages|)
  }

  /**
   * `internalDomainFilter`: the link, completed against its page, is on the page's
   * domain. `None` when completing or comparing throws. A link without a hostname on
   * a page with a host is always internal.
   */
  function IsInternalLink(codec: UrlCodec, pageUrl: string, link: string): (r: Option<bool>)
    ensures
      && codec.parse(pageUrl).Some? && codec.parse(pageUrl).value.host.Some?
      && codec.parse(link).Some? && !HasHostname(codec.parse(link).value)
      ==> r == Some(true)
    ensures codec.parse(link).None? || codec.parse(pageUrl).None? ==> r.None?
    ensures codec.parse(pageUrl).Some? && codec.parse(link).Some? && HasHostname(codec.parse(link).value) ==>
      r == EnsureSameDomain(codec, Text(link), Text(pageUrl))
  {
    match GetCompleteTaskUrl(codec, Text(pageUrl), Text(link))
    case None => None
    case Some(full) => EnsureSameDomain(codec, Parsed(full), Text(pageUrl))
  }

  /**
   * The links of one page on which the domain filter gives `internal`: with `true`,
   * the page's share of `getTotalInternalLinks`, with `false`, of
   * `getTotalExternalLinks`. `None` when the filter throws on any link.
   */
  function CountLinks(codec: UrlCodec, pageUrl: string, links: seq<string>, internal: bool): (n: Option<nat>)
    ensures n.Some? ==> n.value <= |links|
  {
    if links == [] then Some(0)
    else match (IsInternalLink(codec, pageUrl, links[0]), CountLinks(codec, pageUrl, links[1..], internal))
      case (Some(b), Some(m)) => Some(m + (if b == internal then 1 else 0))
      case _ => None
  }

  /** `getTotalInternalLinks` (`internal`) and `getTotalExternalLinks` (not `internal`). */
  function TotalLinksByDomain(codec: UrlCodec, pages: seq<Page>, internal: bool): (n: Option<nat>)
    ensures n.Some? ==> n.value <= TotalLinks(pages)
  {
    if pages == [] then Some(0)
    else match (CountLinks(codec, pages[0].url, pages[0].links, internal), TotalLinksByDomain(codec, pages[1..], internal))
      case (Some(a), Some(b)) => Some(a + b)
      case _ => None
  }

  /** On one page the internal and external filters are complements. */
  lemma {:induction false} LinkCountsComplement(codec: UrlCodec, pageUrl: string, links: seq<string>)
    ensures CountLinks(codec, pageUrl, links, true).Some? <==> CountLinks(codec, pageUrl, links, false).Some?
    ensures CountLinks(codec, pageUrl, links, true).Some? ==>
      CountLinks(codec, pageUrl, links, true).value + CountLinks(codec, pageUrl, links, false).value == |links|
  {
    if links != [] {
      LinkCountsComplement(codec, pageUrl, links[1..]);
    }
  }

  /** Internal plus external links is every link on the pages, and either both totals exist or neither. */
  lemma {:induction false} LinkTotalsComplement(codec: UrlCodec, pages: seq<Page>)
    ensures TotalLinksByDomain(codec, pages, true).Some? <==> TotalLinksByDomain(codec, pages, false).Some?
    ensures TotalLinksByDomain(codec, pages, true).Some? ==>
      TotalLinksByDomain(codec, pages, true).value + TotalLinksByDomain(codec, pages, false).value == TotalLinks(pages)
  {
    if pages != [] {
      LinkCountsComplement(codec, pages[0].url, pages[0].links);
      LinkTotalsComplement(codec, pages[1..]);
    }
  }

  /** A histogram bucket: the status code, or `noStatusCode` for a falsy one. */
  datatype HistKey = NoStatusCode | Code(code: int)

  function StatusKey(p: Page): (k: HistKey)
    ensures k == NoStatusCode <==> !HasStatusCode(p)
    ensures k.Code? ==> p.statusCode == Some(k.code) && k.code != 0
  {
    if HasStatusCode(p) then Code(p.statusCode.value) else NoStatusCode
  }

  function StatusKeys(pages: seq<Page>): (keys: seq<HistKey>)
    ensures |keys| == |pages|
    ensures forall i :: 0 <= i < |pages| ==> keys[i] == StatusKey(pages[i])
  {
    seq(|pages|, i requires 0 <= i < |pages| => StatusKey(pages[i]))
  }

  /**
   * `getFailedPagesStatusCodes`: each bucket holds the number of pages that fall in it,
   * and only buckets that occur are present; so the counts add up to the number of pages.
   */
  method FailedPagesStatusCodes(pages: seq<Page>) returns (histogram: map<HistKey, nat>)
    ensures forall k :: k in histogram ==> histogram[k] > 0
    ensures forall k :: multiset(StatusKeys(pages))[k] == (if k in histogram then histogram[k] else 0)
  {
    histogram := map[];
    var i := 0;
    while i < |pages|
      invariant 0 <= i <= |pages|
      invariant forall k :: k in histogram ==> histogram[k] > 0
      invariant forall k :: multiset(StatusKeys(pages[..i]))[k] == (if k in histogram then histogram[k] else 0)
    {
      var key := StatusKey(pages[i]);
      assert StatusKeys(pages[..i + 1]) == StatusKeys(pages[..i]) + [key];
      histogram := histogram[key := if key in histogram then histogram[key] + 1 else 1];
      i := i + 1;
    }
    assert pages[..i] == pages;
  }

  /** The pages rebuilt from the stored items with `createNewPageFromObject`, in item order. */
  function PagesOf(items: seq<Item>): (pages: seq<Page>)
    ensures |pages| == |items|
    ensures forall i :: 0 <= i < |items| ==> pages[i] == CreateNewPageFromObject(items[i].value)
  {
    seq(|items|, i requires 0 <= i < |items| => CreateNewPageFromObject(items[i].value))
  }

  datatype WorkingReport = WorkingReport(
    count: nat,
    avgPageLoadTimeInMS: Option<int>,
    avgPageSizeInBytes: Option<int>,
    avgLinksOnPage: Option<int>,
    totalExternalLinks: nat,
    totalInternalLinks: nat)

  datatype FailedReport = FailedReport(count: nat, responseCodeHistogram: map<HistKey, nat>)

  /** The report without its percentage field. */
  datatype Report = Report(workingPages: WorkingReport, failedPages: FailedReport)

  /**
   * `getReport`: the counts are the sizes of the two filters and add up to the number
   * of items; the link totals partition the working pages' links. `None` when a link
   * filter throws.
   */
  method GetReport(codec: UrlCodec, items: seq<Item>) returns (r: Option<Report>)
    ensures var w := WorkingPages(PagesOf(items));
      r.Some? <==> TotalLinksByDomain(codec, w, true).Some?
    ensures r.Some? ==>
      var pages := PagesOf(items);
      var w, f := WorkingPages(pages), FailedPages(pages);
      && r.value.workingPages.count == |w|
      && r.value.failedPages.count == |f|
      && r.value.workingPages.count + r.value.failedPages.count == |items|
      && r.value.workingPages.avgPageLoadTimeInMS == AverageLoadTime(w)
      && r.value.workingPages.avgPageSizeInBytes == AveragePageSize(w)
      && r.value.workingPages.avgLinksOnPage == AverageLinksOnPage(w)
      && r.value.workingPages.totalInternalLinks + r.value.workingPages.totalExternalLinks == TotalLinks(w)
      && Some(r.value.workingPages.totalInternalLinks) == TotalLinksByDomain(codec, w, true)
      && (forall k :: multiset(StatusKeys(f))[k] ==
            if k in r.value.failedPages.responseCodeHistogram then r.value.failedPages.responseCodeHistogram[k] else 0)
  {
    var pages := PagesOf(items);
    var workingPages := WorkingPages(pages);
    var failedPages := FailedPages(pages);
    WorkingAndFailedPartition(pages);
    LinkTotalsComplement(codec, workingPages);
    var external := TotalLinksByDomain(codec, workingPages, false);
    var internal := TotalLinksByDomain(codec, workingPages, true);
    if external.None? || internal.None? {
      return None;
    }
    var histogram := FailedPagesStatusCodes(failedPages);
    r := Some(Report(
      WorkingReport(|workingPages|, AverageLoadTime(workingPages), AveragePageSize(workingPages),
                    AverageLinksOnPage(workingPages), external.value, internal.value),
      FailedReport(|failedPages|, histogram)));
  }
}
