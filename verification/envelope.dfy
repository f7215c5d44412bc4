/** One page response of the procurement open API and how the search worker classifies it
    (narasearch_v1.py, `SearchWorker.run`, lines 229-264). HTTP and JSON decoding are
    abstracted: a response carries its status, its raw text, and the decoded envelope when
    the text is well-formed JSON. */
module Envelope {
  import opened Common
  import opened Text
  import opened Decimal

  /** A scalar JSON value in a result-code position. */
  datatype Scalar = Str(s: string) | Int(i: int)

  /** A `header` object; `resultCode` is `None` when the key is missing or null. */
  datatype Header = Header(resultCode: Option<Scalar>)

  /** The `items` field of a body: absent, a list of records, or a bare record. */
  datatype ItemsField = NoItems | ItemList(list: seq<Record>) | ItemObject(obj: Record)

  /** The `body` object; `totalCount` is `None` when the key is missing. */
  datatype Body = Body(items: ItemsField, totalCount: Option<int>)

  /** The `response` object. */
  datatype ResponseNode = ResponseNode(header: Option<Header>, body: Option<Body>)

  /** The vendor error envelope `nkoneps.com.response.ResponseError`. */
  datatype VendorError = VendorError(header: Option<Header>)

  /** The decoded top-level object, reduced to the three keys the worker looks at. */
  datatype Envelope = Envelope(response: Option<ResponseNode>, vendorError: Option<VendorError>, resultCode: Option<Scalar>)

  /** What one `requests.get` yields: `json` is `None` when `res.json()` raises. */
  datatype Response = Response(status: int, text: string, json: Option<Envelope>)

  datatype FailureKind = TransportFailure | ParseFailure | RangeExceeded | NoResults | NoKeywordMatch

  /** A failure and the message the worker emits for it. */
  datatype Failure = Failure(kind: FailureKind, message: string)

  /** The verdict on one page: abort the search, stop paging, or take these items. */
  datatype PageStep = Abort(failure: Failure) | LastPage | Data(items: seq<Record>, totalCount: int)

  const OkStatus: int := 200
  const RangeCode: string := "07"
  const ParsePrefixLength: nat := 300
  const RangeMessage: string := "최대 검색기간을 초과하였습니다.\n31일 이내로 검색해주세요."

  function TransportMessage(status: int): string
  {
    "서버 접속 오류: " + IntToString(status)
  }

  function ParseMessage(text: string): string
  {
    "데이터 파싱 실패: " + Prefix(text, ParsePrefixLength)
  }

  /** The three places a result code can live, in the order the worker probes them. */
  datatype Location = ResponseHeader | VendorHeader | TopLevel

  const ProbeOrder: seq<Location> := [ResponseHeader, VendorHeader, TopLevel]

  /** The location exists in the envelope (its result code may still be missing). */
  predicate Holds(env: Envelope, loc: Location)
  {
    match loc
    case ResponseHeader => env.response.Some? && env.response.value.header.Some?
    case VendorHeader => env.vendorError.Some?
    case TopLevel => env.resultCode.Some?
  }

  /** The result code read at a location; a vendor envelope without a header reads as `None`. */
  function CodeAt(env: Envelope, loc: Location): Option<Scalar>
  {
    match loc
    case ResponseHeader =>
      if env.response.Some? && env.response.value.header.Some? then env.response.value.header.value.resultCode else None
    case VendorHeader =>
      if env.vendorError.Some? && env.vendorError.value.header.Some? then env.vendorError.value.header.value.resultCode else None
    case TopLevel => env.resultCode
  }

  /** The worker's `if`/`elif` chain for `result_code`. */
  function ResultCode(env: Envelope): Option<Scalar>
  {
    if Holds(env, ResponseHeader) then CodeAt(env, ResponseHeader)
    else if Holds(env, VendorHeader) then CodeAt(env, VendorHeader)
    else if Holds(env, TopLevel) then CodeAt(env, TopLevel)
    else None
  }

  /** The code comes from the first location, in probe order, that exists in the envelope;
      later locations are ignored even if they hold a code. */
  lemma ResultCodeIsFirstHolding(env: Envelope, k: nat)
    requires k < |ProbeOrder| && Holds(env, ProbeOrder[k])
    requires forall j :: 0 <= j < k ==> !Holds(env, ProbeOrder[j])
    ensures ResultCode(env) == CodeAt(env, ProbeOrder[k])
  {
    if k == 1 {
      assert !Holds(env, ProbeOrder[0]);
    } else if k == 2 {
      assert !Holds(env, ProbeOrder[0]) && !Holds(env, ProbeOrder[1]);
    }
  }

  /** With no location present there is no result code. */
  lemma ResultCodeAbsent(env: Envelope)
    requires forall j :: 0 <= j < |ProbeOrder| ==> !Holds(env, ProbeOrder[j])
    ensures ResultCode(env) == None
  {
    assert !Holds(env, ProbeOrder[0]) && !Holds(env, ProbeOrder[1]) && !Holds(env, ProbeOrder[2]);
  }

  /** Python's `str(result_code)`. */
  function PyStr(code: Option<Scalar>): string
  {
    match code
    case None => "None"
    case Some(Str(s)) => s
    case Some(Int(i)) => IntToString(i)
  }

  /** `str(result_code) == "07"` holds exactly for the JSON string "07": the integer 7 prints as "7". */
  lemma RangeCodeOnlyFromString(code: Option<Scalar>)
    ensures PyStr(code) == RangeCode <==> code == Some(Str(RangeCode))
  {
  }

  /** A "07" in a later location is not seen when an earlier location exists: a response header
      without a code hides a top-level "07", so such a page is not rejected as out of range. */
  lemma RangeCodeShadowed(node: ResponseNode, vendor: Option<VendorError>)
    requires node.header == Some(Header(None))
    ensures !ClassifyPage(Response(OkStatus, "", Some(Envelope(Some(node), vendor, Some(Str(RangeCode)))))).Abort?
  {
    var env := Envelope(Some(node), vendor, Some(Str(RangeCode)));
    assert ResultCode(env) == None;
  }

  /** Python truthiness of the `items` value. */
  predicate ItemsTruthy(f: ItemsField)
  {
    match f
    case NoItems => false
    case ItemList(l) => |l| > 0
    case ItemObject(o) => |o| > 0
  }

  /** A bare record becomes a one-element list. */
  function AsList(f: ItemsField): (r: seq<Record>)
    ensures ItemsTruthy(f) ==> |r| > 0
    ensures f.ItemObject? ==> r == [f.obj]
    ensures f.ItemList? ==> r == f.list
  {
    match f
    case NoItems => []
    case ItemList(l) => l
    case ItemObject(o) => [o]
  }

  /** The body of a decoded envelope, when `response.body` exists. */
  function BodyOf(env: Envelope): Option<Body>
  {
    if env.response.Some? && env.response.value.body.Some? then env.response.value.body else None
  }

  /** Classifies one page: status first, then decoding, then the range code, then the body. */
  function ClassifyPage(r: Response): (step: PageStep)
    ensures step.Abort? <==> r.status != OkStatus || r.json.None? || ResultCode(r.json.value) == Some(Str(RangeCode))
    ensures step.Abort? ==> step.failure.kind in {TransportFailure, ParseFailure, RangeExceeded}
    ensures step.Data? ==> |step.items| > 0
  {
    if r.status != OkStatus then
      Abort(Failure(TransportFailure, TransportMessage(r.status)))
    else if r.json.None? then
      Abort(Failure(ParseFailure, ParseMessage(r.text)))
    else
      var env := r.json.value;
      RangeCodeOnlyFromString(ResultCode(env));
      if PyStr(ResultCode(env)) == RangeCode then
        Abort(Failure(RangeExceeded, RangeMessage))
      else if BodyOf(env).None? then
        LastPage
      else
        var body := BodyOf(env).value;
        if !ItemsTruthy(body.items) then LastPage
        else Data(AsList(body.items), if body.totalCount.Some? then body.totalCount.value else 0)
  }

  /** Error pages abort with the worker's exact messages: the status code for a failed request,
      the first 300 characters of an undecodable text, the fixed text for a range rejection. */
  lemma ClassifyErrors(r: Response)
    ensures r.status != OkStatus ==>
      ClassifyPage(r) == Abort(Failure(TransportFailure, TransportMessage(r.status)))
    ensures r.status == OkStatus && r.json.None? ==>
      ClassifyPage(r) == Abort(Failure(ParseFailure, ParseMessage(r.text)))
    ensures r.status == OkStatus && r.json.Some? && ResultCode(r.json.value) == Some(Str(RangeCode)) ==>
      ClassifyPage(r) == Abort(Failure(RangeExceeded, RangeMessage))
  {
    if r.status == OkStatus && r.json.Some? {
      RangeCodeOnlyFromString(ResultCode(r.json.value));
    }
  }

  /** The range code is acted on before the body is read: two envelopes that differ only in
      their body classify alike when the code is "07". */
  lemma RangeCheckPrecedesBody(status: int, text: string, env: Envelope, other: Option<Body>)
    requires ResultCode(env) == Some(Str(RangeCode)) && env.response.Some?
    ensures ClassifyPage(Response(status, text, Some(env)))
         == ClassifyPage(Response(status, text, Some(env.(response := Some(env.response.value.(body := other))))))
  {
    var env' := env.(response := Some(env.response.value.(body := other)));
    assert ResultCode(env') == ResultCode(env);
    RangeCodeOnlyFromString(ResultCode(env));
  }

  /** A page that passes the checks yields its items, a bare record as a one-element list, with
      an absent `totalCount` read as 0; a missing body or falsy `items` ends the paging. */
  lemma ClassifyBody(r: Response)
    requires r.status == OkStatus && r.json.Some? && ResultCode(r.json.value) != Some(Str(RangeCode))
    ensures BodyOf(r.json.value).None? ==> ClassifyPage(r) == LastPage
    ensures BodyOf(r.json.value).Some? && !ItemsTruthy(BodyOf(r.json.value).value.items) ==> ClassifyPage(r) == LastPage
    ensures BodyOf(r.json.value).Some? && ItemsTruthy(BodyOf(r.json.value).value.items) ==>
      var b := BodyOf(r.json.value).value;
      ClassifyPage(r) == Data(AsList(b.items), if b.totalCount.None? then 0 else b.totalCount.value)
  {
    RangeCodeOnlyFromString(ResultCode(r.json.value));
  }

}
