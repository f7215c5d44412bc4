/** Starting a search and the worker's verdict (narasearch_v1.py: `execute_search`,
    lines 653-708, and `SearchWorker.run`, lines 219-306). */
module Search {
  import opened Common
  import opened Text
  import opened Envelope
  import opened Paging
  import opened Keywords
  import TimePopup

  /** The two notice categories of the category selector. */
  const BidNotice: string := "입찰공고"
  const PreSpec: string := "사전규격"

  /** Where a category is searched: the service URL, and the field that is both the server-side
      keyword parameter and the title the client-side filter reads. */
  datatype Endpoint = Endpoint(urlBase: string, titleField: string)

  const BidNoticeEndpoint: Endpoint :=
    Endpoint("http://apis.data.go.kr/1230000/ad/BidPublicInfoService/getBidPblancListInfoServcPPSSrch?", "bidNtceNm")
  const PreSpecEndpoint: Endpoint :=
    Endpoint("http://apis.data.go.kr/1230000/ao/HrcspSsstndrdInfoService/getPublicPrcureThngInfoServcPPSSrch?", "prdctClsfcNoNm")

  /** The category dispatch: exactly the two known categories have an endpoint, and they
      search different services on different title fields. */
  function EndpointFor(category: string): (ep: Option<Endpoint>)
    ensures ep.Some? <==> category == BidNotice || category == PreSpec
    ensures category == BidNotice ==> ep == Some(BidNoticeEndpoint)
    ensures category == PreSpec ==> ep == Some(PreSpecEndpoint)
  {
    if category == BidNotice then Some(BidNoticeEndpoint)
    else if category == PreSpec then Some(PreSpecEndpoint)
    else None
  }

  /** The fixed query parameters; the primary keyword goes under the category's title field. */
  function ParamsBase(startStamp: string, endStamp: string, field: string, primary: string, serviceKey: string): string
  {
    "inqryDiv=1&inqryBgnDt=" + startStamp + "&inqryEndDt=" + endStamp + "&" + field + "=" + primary
      + "&type=json&serviceKey=" + serviceKey
  }

  /** What a started worker is given. */
  datatype Job = Job(urlBase: string, paramsBase: string, keywords: seq<string>, titleField: string)

  /** `execute_search` either refuses with a warning or starts a worker. */
  datatype Launch = Rejected(message: string) | Launched(job: Job)

  const EmptyKeywordMessage: string := "검색어를 입력해주세요."
  const MissingKeyMessage: string := "API 인증키를 입력해주세요."
  const UnknownCategoryMessage: string := "검색 유형(입찰공고/사전규격)을 선택해주세요."

  /** Input checks in the source's order (keywords, then key, then category), then the job. */
  function ExecuteSearch(keywordInput: string, category: string, startStamp: string, endStamp: string, serviceKey: string): (l: Launch)
    ensures Tokenize(keywordInput) == [] ==> l == Rejected(EmptyKeywordMessage)
    ensures Tokenize(keywordInput) != [] && Strip(serviceKey) == "" ==> l == Rejected(MissingKeyMessage)
    ensures Tokenize(keywordInput) != [] && Strip(serviceKey) != "" && EndpointFor(Strip(category)).None? ==>
      l == Rejected(UnknownCategoryMessage)
    ensures l.Launched? <==>
      Tokenize(keywordInput) != [] && Strip(serviceKey) != "" && EndpointFor(Strip(category)).Some?
    ensures l.Launched? ==>
      && l.job.keywords == Tokenize(keywordInput)
      && l.job.urlBase == EndpointFor(Strip(category)).value.urlBase
      && l.job.titleField == EndpointFor(Strip(category)).value.titleField
      && l.job.paramsBase == ParamsBase(startStamp, endStamp, l.job.titleField, l.job.keywords[0], Strip(serviceKey))
  {
    var keywords := Tokenize(keywordInput);
    if keywords == [] then Rejected(EmptyKeywordMessage)
    else
      var key := Strip(serviceKey);
      if key == "" then Rejected(MissingKeyMessage)
      else match EndpointFor(Strip(category))
        case None => Rejected(UnknownCategoryMessage)
        case Some(ep) => Launched(Job(ep.urlBase, ParamsBase(startStamp, endStamp, ep.titleField, keywords[0], key), keywords, ep.titleField))
  }

  /** Offsets of the start and end stamps in `ParamsBase`: right after `inqryBgnDt=` and after
      `inqryEndDt=`. */
  const PeriodStart: nat := 22
  const PeriodEnd: nat := 46

  /** Where the two stamps sit in the fixed query parameters. */
  lemma ParamsBasePeriod(startStamp: string, endStamp: string, field: string, primary: string, serviceKey: string)
    requires |startStamp| == 12 && |endStamp| == 12
    ensures var q := ParamsBase(startStamp, endStamp, field, primary, serviceKey);
      && PeriodEnd + 12 <= |q|
      && q[PeriodStart..PeriodStart + 12] == startStamp
      && q[PeriodEnd..PeriodEnd + 12] == endStamp
  {
    var head, mid := "inqryDiv=1&inqryBgnDt=", "&inqryEndDt=";
    var rest := "&" + field + "=" + primary + "&type=json&serviceKey=" + serviceKey;
    var q := ParamsBase(startStamp, endStamp, field, primary, serviceKey);
    assert q == head + startStamp + mid + endStamp + rest;
    assert |head| == PeriodStart && |head| + 12 + |mid| == PeriodEnd;
  }

  /** The query period of a launched search is the one picked in the two date-time editors:
      the twelve digits after `inqryBgnDt=` and after `inqryEndDt=` are the stamps of the start
      and end moments, and reading them back gives those moments again. */
  lemma LaunchPeriod(keywordInput: string, category: string, start: TimePopup.Moment, end: TimePopup.Moment, serviceKey: string)
    requires TimePopup.Fits(start) && TimePopup.Fits(end)
    ensures var l := ExecuteSearch(keywordInput, category, TimePopup.Stamp(start), TimePopup.Stamp(end), serviceKey);
      l.Launched? ==>
        var q := l.job.paramsBase;
        && PeriodEnd + 12 <= |q|
        && q[PeriodStart..PeriodStart + 12] == TimePopup.Stamp(start)
        && q[PeriodEnd..PeriodEnd + 12] == TimePopup.Stamp(end)
        && TimePopup.ReadStamp(q[PeriodStart..PeriodStart + 12]) == start
        && TimePopup.ReadStamp(q[PeriodEnd..PeriodEnd + 12]) == end
  {
    var s0, s1 := TimePopup.Stamp(start), TimePopup.Stamp(end);
    var l := ExecuteSearch(keywordInput, category, s0, s1, serviceKey);
    if l.Launched? {
      ParamsBasePeriod(s0, s1, l.job.titleField, l.job.keywords[0], Strip(serviceKey));
      TimePopup.ReadStampOf(start);
      TimePopup.ReadStampOf(end);
    }
  }

  /** The worker's verdict: the filtered records, or the failure it reports. */
  datatype Outcome = Found(items: seq<Record>) | Failed(failure: Failure)

  const NoResultsMessage: string := "검색 결과가 없습니다."

  /** `SearchWorker.run` after the paging loop: no records is a failure, then the filter, and a
      filter that keeps nothing is a failure naming the keywords and the number fetched. */
  function Verdict(all: seq<Record>, keywords: seq<string>, field: string): (o: Outcome)
    ensures |all| == 0 ==> o == Failed(Failure(NoResults, NoResultsMessage))
    ensures o.Found? ==> |o.items| > 0 && forall r :: r in o.items ==> r in all && Matches(r, keywords, field)
    ensures o.Failed? ==> o.failure.kind in {NoResults, NoKeywordMatch}
  {
    if |all| == 0 then Failed(Failure(NoResults, NoResultsMessage))
    else
      var kept := KeywordFilter(all, keywords, field);
      KeepMatchingMembers(all, keywords, field);
      if |kept| == 0 then Failed(Failure(NoKeywordMatch, NoMatchMessage(keywords, |all|)))
      else Found(kept)
  }

  /** On a non-empty aggregate the verdict keeps every matching record, in gathered order, and
      fails exactly when no record matches, naming the keywords and how many were fetched. */
  lemma VerdictFilter(all: seq<Record>, keywords: seq<string>, field: string)
    requires |all| > 0
    ensures var o := Verdict(all, keywords, field);
      && (o.Found? ==> IsSubsequence(o.items, all) && forall r :: r in all && Matches(r, keywords, field) ==> r in o.items)
      && (o.Failed? ==> |keywords| > 0 && o.failure == Failure(NoKeywordMatch, NoMatchMessage(keywords, |all|)))
      && (o.Failed? <==> forall r :: r in all ==> !Matches(r, keywords, field))
  {
    KeepMatchingSubsequence(all, keywords, field);
    KeepMatchingNoKeywords(all, field);
    KeepMatchingMembers(all, keywords, field);
    assert all[0] in all;
  }

  /** The worker: a crawl that aborted reports its failure and discards what it gathered;
      otherwise the verdict on the aggregate. */
  function RunWorker(get: string -> Response, job: Job): (o: Outcome)
    ensures var crawl := Paginate(get, job.urlBase, job.paramsBase);
      && (crawl.stop.Aborted? ==> o == Failed(crawl.stop.failure))
      && (crawl.stop.Finished? ==> o == Verdict(crawl.stop.items, job.keywords, job.titleField))
      && (o.Found? ==> forall r :: r in o.items ==> r in crawl.stop.items && Matches(r, job.keywords, job.titleField))
  {
    match Paginate(get, job.urlBase, job.paramsBase).stop
    case Aborted(f) => Failed(f)
    case Finished(all) => Verdict(all, job.keywords, job.titleField)
  }

  /** The whole search from the user's input: refused before any request, or the worker's verdict. */
  datatype SearchResult = Refused(message: string) | Ran(outcome: Outcome)

  /** The whole search: blank keywords, a blank key or an unknown category are refused whatever
      the server would answer, and every record shown carries all keywords in the title field of
      the chosen category. */
  function SearchFor(get: string -> Response, keywordInput: string, category: string, startStamp: string, endStamp: string, serviceKey: string): (r: SearchResult)
    ensures Tokenize(keywordInput) == [] ==> r == Refused(EmptyKeywordMessage)
    ensures Tokenize(keywordInput) != [] && Strip(serviceKey) == "" ==> r == Refused(MissingKeyMessage)
    ensures Tokenize(keywordInput) != [] && Strip(serviceKey) != "" && EndpointFor(Strip(category)).None? ==>
      r == Refused(UnknownCategoryMessage)
    ensures r.Ran? <==> Tokenize(keywordInput) != [] && Strip(serviceKey) != "" && EndpointFor(Strip(category)).Some?
    ensures r.Ran? && r.outcome.Found? ==>
      forall x :: x in r.outcome.items ==> Matches(x, Tokenize(keywordInput), EndpointFor(Strip(category)).value.titleField)
  {
    match ExecuteSearch(keywordInput, category, startStamp, endStamp, serviceKey)
    case Rejected(msg) => Refused(msg)
    case Launched(job) => Ran(RunWorker(get, job))
  }

}
