/** The paging loop of `SearchWorker.run` (narasearch_v1.py, lines 219-273), as a pure function
    of a page oracle `get` that maps a request URL to the response the server gives for it. */
module Paging {
  import opened Common
  import opened Decimal
  import opened Envelope

  /** The anti-runaway ceiling: no page beyond the twentieth is requested. */
  const MaxPages: nat := 20

  /** The fixed page size sent with every request. */
  const RowsPerPage: nat := 999

  /** The query string for one page: the fixed parameters, then page number and page size. */
  function PageQuery(paramsBase: string, page: nat): string
  {
    paramsBase + "&pageNo=" + DigitsOf(page) + "&numOfRows=" + DigitsOf(RowsPerPage)
  }

  function PageUrl(urlBase: string, paramsBase: string, page: nat): string
  {
    urlBase + PageQuery(paramsBase, page)
  }

  /** Different page numbers give different URLs, so no URL is requested twice. */
  lemma PageUrlInjective(urlBase: string, paramsBase: string, a: nat, b: nat)
    requires PageUrl(urlBase, paramsBase, a) == PageUrl(urlBase, paramsBase, b)
    ensures a == b
  {
    var head := urlBase + paramsBase + "&pageNo=";
    var tail := "&numOfRows=" + DigitsOf(RowsPerPage);
    var da, db := DigitsOf(a), DigitsOf(b);
    assert PageUrl(urlBase, paramsBase, a) == head + da + tail;
    assert PageUrl(urlBase, paramsBase, b) == head + db + tail;
    assert |da| == |db|;
    assert da == (head + da + tail)[|head|..|head| + |da|];
    assert db == (head + db + tail)[|head|..|head| + |db|];
    DigitsOfInjective(a, b);
  }

  /** How a crawl ended: with the aggregated records, or with the failure that aborted it. */
  datatype Stop = Finished(items: seq<Record>) | Aborted(failure: Failure)

  /** A crawl requested pages `first..last` and then stopped. */
  datatype Crawl = Crawl(last: nat, stop: Stop)

  /** The records a classified page contributes to the aggregate. */
  function StepItems(step: PageStep): seq<Record>
  {
    if step.Data? then step.items else []
  }

  /** The in-order concatenation of the records of pages `from` up to, not including, `to`. */
  function Gathered(steps: nat -> PageStep, from: nat, to: nat): seq<Record>
    decreases to - from
  {
    if from >= to then [] else StepItems(steps(from)) + Gathered(steps, from + 1, to)
  }

  /** After `gathered` records, this page leads to another request (cap aside): it carried items
      and the running total is still below the reported `totalCount`. */
  predicate Continues(step: PageStep, gathered: nat)
  {
    step.Data? && gathered + |step.items| < step.totalCount
  }

  /** The loop from page `page` on, with `acc` already gathered; `steps` classifies each page. */
  function CrawlFrom(steps: nat -> PageStep, page: nat, acc: seq<Record>): (c: Crawl)
    requires 1 <= page <= MaxPages
    ensures page <= c.last <= MaxPages
    decreases MaxPages - page
  {
    match steps(page)
    case Abort(f) => Crawl(page, Aborted(f))
    case LastPage => Crawl(page, Finished(acc))
    case Data(items, total) =>
      var acc' := acc + items;
      if |acc'| >= total || page + 1 > MaxPages then Crawl(page, Finished(acc'))
      else CrawlFrom(steps, page + 1, acc')
  }

  /** A finished crawl holds exactly what it started with followed by every requested page's
      records, in page order. */
  lemma {:induction false} CrawlAggregate(steps: nat -> PageStep, page: nat, acc: seq<Record>)
    requires 1 <= page <= MaxPages
    ensures var c := CrawlFrom(steps, page, acc);
      c.stop.Finished? ==> c.stop.items == acc + Gathered(steps, page, c.last + 1)
    decreases MaxPages - page
  {
    var c := CrawlFrom(steps, page, acc);
    var step := steps(page);
    if step.Data? && !(|acc + step.items| >= step.totalCount || page + 1 > MaxPages) {
      CrawlAggregate(steps, page + 1, acc + step.items);
      assert Gathered(steps, page, c.last + 1) == step.items + Gathered(steps, page + 1, c.last + 1);
    } else {
      assert Gathered(steps, page, page + 1) == StepItems(step) + Gathered(steps, page + 1, page + 1);
    }
  }

  /** Every page but the last one requested carried items and left the running total below
      its `totalCount`: the loop never stops early. */
  lemma {:induction false} CrawlContinuation(steps: nat -> PageStep, page: nat, acc: seq<Record>)
    requires 1 <= page <= MaxPages
    ensures var c := CrawlFrom(steps, page, acc);
      forall p :: page <= p < c.last ==> Continues(steps(p), |acc + Gathered(steps, page, p)|)
    decreases MaxPages - page
  {
    var c := CrawlFrom(steps, page, acc);
    var step := steps(page);
    if step.Data? && !(|acc + step.items| >= step.totalCount || page + 1 > MaxPages) {
      var acc' := acc + step.items;
      CrawlContinuation(steps, page + 1, acc');
      forall p | page <= p < c.last
        ensures Continues(steps(p), |acc + Gathered(steps, page, p)|)
      {
        if p > page {
          assert acc + Gathered(steps, page, p) == acc' + Gathered(steps, page + 1, p);
        }
      }
    }
  }

  /** How the last requested page ended the crawl: a failing page aborts with its failure and
      discards what was gathered; otherwise the crawl finishes, because that page does not
      continue or because it was page 20. */
  lemma {:induction false} CrawlEnding(steps: nat -> PageStep, page: nat, acc: seq<Record>)
    requires 1 <= page <= MaxPages
    ensures var c := CrawlFrom(steps, page, acc);
      var final := steps(c.last);
      && (final.Abort? ==> c.stop == Aborted(final.failure))
      && (!final.Abort? ==>
            && c.stop.Finished?
            && (!Continues(final, |acc + Gathered(steps, page, c.last)|) || c.last == MaxPages))
    decreases MaxPages - page
  {
    var c := CrawlFrom(steps, page, acc);
    var step := steps(page);
    if step.Data? && !(|acc + step.items| >= step.totalCount || page + 1 > MaxPages) {
      var acc' := acc + step.items;
      CrawlEnding(steps, page + 1, acc');
      assert acc + Gathered(steps, page, c.last) == acc' + Gathered(steps, page + 1, c.last);
    }
  }

  /** The classification of page `p` of the search. */
  function PageSteps(get: string -> Response, urlBase: string, paramsBase: string): nat -> PageStep
  {
    (p: nat) => ClassifyPage(get(PageUrl(urlBase, paramsBase, p)))
  }

  /** The URLs of pages 1..last, in order. */
  function RequestedUrls(urlBase: string, paramsBase: string, last: nat): (urls: seq<string>)
    ensures |urls| == last
    ensures forall i :: 0 <= i < last ==> urls[i] == PageUrl(urlBase, paramsBase, i + 1)
  {
    seq(last, i requires 0 <= i < last => PageUrl(urlBase, paramsBase, i + 1))
  }

  /** The whole paging loop: from page 1 with nothing gathered. */
  function Paginate(get: string -> Response, urlBase: string, paramsBase: string): Crawl
  {
    CrawlFrom(PageSteps(get, urlBase, paramsBase), 1, [])
  }

  /** Pages 1, 2, 3, ... are requested in order, with no gap and no repeated URL, and never more
      than twenty whatever `totalCount` says. */
  lemma PaginateVisitsPagesInOrder(get: string -> Response, urlBase: string, paramsBase: string)
    ensures var c := Paginate(get, urlBase, paramsBase);
      var urls := RequestedUrls(urlBase, paramsBase, c.last);
      && 1 <= |urls| <= MaxPages
      && (forall i :: 0 <= i < |urls| ==> urls[i] == PageUrl(urlBase, paramsBase, i + 1))
      && (forall i, j :: 0 <= i < j < |urls| ==> urls[i] != urls[j])
  {
    var c := Paginate(get, urlBase, paramsBase);
    var urls := RequestedUrls(urlBase, paramsBase, c.last);
    forall i, j | 0 <= i < j < |urls| ensures urls[i] != urls[j] {
      if urls[i] == urls[j] {
        PageUrlInjective(urlBase, paramsBase, i + 1, j + 1);
      }
    }
  }

  /** The crawl depends only on the pages it requests: two classifications that agree on pages
      `page` up to the last one requested give the same crawl. */
  lemma {:induction false} CrawlFromFrame(s1: nat -> PageStep, s2: nat -> PageStep, page: nat, acc: seq<Record>)
    requires 1 <= page <= MaxPages
    requires forall p :: page <= p <= CrawlFrom(s1, page, acc).last ==> s1(p) == s2(p)
    ensures CrawlFrom(s1, page, acc) == CrawlFrom(s2, page, acc)
    decreases MaxPages - page
  {
    var c := CrawlFrom(s1, page, acc);
    assert s1(page) == s2(page);
    var step := s1(page);
    if step.Data? && !(|acc + step.items| >= step.totalCount || page + 1 > MaxPages) {
      CrawlFromFrame(s1, s2, page + 1, acc + step.items);
    }
  }

  /** The outcome of a search is decided by the responses to the URLs it requests and by nothing
      else the server might answer: two servers that agree on those URLs give the same crawl. */
  lemma PaginateFrame(get1: string -> Response, get2: string -> Response, urlBase: string, paramsBase: string)
    requires forall u :: u in RequestedUrls(urlBase, paramsBase, Paginate(get1, urlBase, paramsBase).last) ==>
      get1(u) == get2(u)
    ensures Paginate(get1, urlBase, paramsBase) == Paginate(get2, urlBase, paramsBase)
  {
    var s1, s2 := PageSteps(get1, urlBase, paramsBase), PageSteps(get2, urlBase, paramsBase);
    var urls := RequestedUrls(urlBase, paramsBase, CrawlFrom(s1, 1, []).last);
    forall p | 1 <= p <= CrawlFrom(s1, 1, []).last ensures s1(p) == s2(p) {
      assert urls[p - 1] in urls;
    }
    CrawlFromFrame(s1, s2, 1, []);
  }

  /** A first page with items and no `totalCount` (read as 0) is the only page requested. */
  lemma PaginateSinglePageWithoutTotal(get: string -> Response, urlBase: string, paramsBase: string, env: Envelope, items: ItemsField)
    requires get(PageUrl(urlBase, paramsBase, 1)).status == OkStatus
    requires get(PageUrl(urlBase, paramsBase, 1)).json == Some(env)
    requires ResultCode(env) != Some(Str(RangeCode))
    requires BodyOf(env) == Some(Body(items, None)) && ItemsTruthy(items)
    ensures Paginate(get, urlBase, paramsBase) == Crawl(1, Finished(AsList(items)))
  {
    ClassifyBody(get(PageUrl(urlBase, paramsBase, 1)));
    var steps := PageSteps(get, urlBase, paramsBase);
    assert steps(1) == Data(AsList(items), 0);
    assert [] + AsList(items) == AsList(items);
  }

  /** Page 1 with 999 of 1200 records, then page 2 with the remaining 201: exactly two pages are
      requested and all 1200 records are gathered in page order. */
  lemma PaginateTwoPages(get: string -> Response, urlBase: string, paramsBase: string, a: seq<Record>, b: seq<Record>)
    requires |a| == 999 && |b| == 201
    requires ClassifyPage(get(PageUrl(urlBase, paramsBase, 1))) == Data(a, 1200)
    requires ClassifyPage(get(PageUrl(urlBase, paramsBase, 2))) == Data(b, 1200)
    ensures Paginate(get, urlBase, paramsBase) == Crawl(2, Finished(a + b))
    ensures |a + b| == 1200
  {
    var steps := PageSteps(get, urlBase, paramsBase);
    assert steps(1) == Data(a, 1200);
    assert steps(2) == Data(b, 1200);
    assert [] + a == a;
    assert CrawlFrom(steps, 1, []) == CrawlFrom(steps, 2, a);
  }

}
