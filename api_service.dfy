/** The app's JSON POST client: its error type with the user-facing
    descriptions, how a request is put together, and how the outcome of the
    exchange is classified into a decoded value or an `ApiError`.
    The transport is abstract: what `URLSession` did with the request
    is an input, and so is the JSON decoder, as a function of the body bytes. */
module ApiService {
  import opened Basics

  datatype ApiError =
    | InvalidUrl
    | InvalidCredentials
    | InvalidResponse
    | ServerError(message: string)
    | RequestTimeout
    | UnknownError
    | DecodingError

  /** `errorDescription`; Swift's optional is always present, so it is a plain string here. */
  function ErrorDescription(e: ApiError): (d: string)
    ensures e.ServerError? ==> d == e.message
    ensures !e.ServerError? ==> d != ""
  {
    match e
    case InvalidUrl => "Invalid URL connection "
    case InvalidResponse => "Invalid response from server"
    case InvalidCredentials => "Incorrect Email or Password"
    case ServerError(message) => message
    case RequestTimeout => "Request Timed out"
    case UnknownError => "Unknown Error!!"
    case DecodingError => "Decoding error!"
  }

  /** The six cases without a payload are told apart by their descriptions. */
  lemma FixedDescriptionsDistinct(a: ApiError, b: ApiError)
    requires !a.ServerError? && !b.ServerError? && a != b
    ensures ErrorDescription(a) != ErrorDescription(b)
  {
  }

  const BASE_URL_STRING := "https://app.cagnea.com"
  const TIMEOUT_INTERVAL := 15
  const JSON_MEDIA_TYPE := "application/json"

  datatype Request = Request(
    url: string, httpMethod: string, timeoutInterval: int,
    headers: map<string, string>, httpBody: seq<Byte>)

  datatype HttpResponse = NonHttp | Http(statusCode: int)

  /** What the transport did with a request: throw a `URLError` (a time-out or
      another code), or deliver a response with its body. */
  datatype Transport = Failed(timedOut: bool) | Delivered(response: HttpResponse, data: seq<Byte>)

  /** What the exchange part of `post` throws before its catch clauses see it. */
  datatype Thrown = UrlErrorThrown(timedOut: bool) | ApiErrorThrown(error: ApiError) | DecodingErrorThrown

  /** Whether a request was put on the wire, and what `post` returned or threw. */
  datatype PostOutcome<T> = PostOutcome(sent: Option<Request>, result: Result<T, ApiError>)

  predicate IsSuccessStatus(code: int) { 200 <= code <= 299 }

  /** The request `post` sends: JSON in and out, a 15 second time-out, and a
      bearer token exactly when one is supplied. */
  function MakeRequest(url: string, httpMethod: string, accessToken: Option<string>, body: seq<Byte>): (r: Request)
    ensures r.url == url && r.httpMethod == httpMethod && r.httpBody == body
    ensures r.timeoutInterval == 15
    ensures "Content-Type" in r.headers && r.headers["Content-Type"] == JSON_MEDIA_TYPE
    ensures "Accept" in r.headers && r.headers["Accept"] == JSON_MEDIA_TYPE
    ensures "Authorization" in r.headers <==> accessToken.Some?
    ensures accessToken.Some? ==> r.headers["Authorization"] == "Bearer " + accessToken.value
    ensures r.headers.Keys <= {"Content-Type", "Accept", "Authorization"}
  {
    var headers := map["Content-Type" := JSON_MEDIA_TYPE, "Accept" := JSON_MEDIA_TYPE];
    var headers := if accessToken.Some? then headers["Authorization" := "Bearer " + accessToken.value] else headers;
    Request(url, httpMethod, TIMEOUT_INTERVAL, headers, body)
  }

  /** The body of the second `do` block: what it returns or throws. */
  function Exchange<T>(transport: Transport, decode: seq<Byte> -> Option<T>): (r: Result<T, Thrown>)
    // A value comes out exactly for a 2xx HTTP response whose body decodes.
    ensures r.Success? <==>
      transport.Delivered? && transport.response.Http? && IsSuccessStatus(transport.response.statusCode)
      && decode(transport.data).Some?
    ensures r.Success? ==> r.value == decode(transport.data).value
    // The transport's own error is passed on; a bad response is an `ApiError`; a bad body a decoding error.
    ensures transport.Failed? ==> r == Failure(UrlErrorThrown(transport.timedOut))
    ensures transport.Delivered? && transport.response.NonHttp? ==> r == Failure(ApiErrorThrown(InvalidResponse))
    ensures transport.Delivered? && transport.response.Http? && !IsSuccessStatus(transport.response.statusCode) ==>
      r.Failure? && r.error.ApiErrorThrown? && r.error.error.ServerError?
    ensures r.Failure? && r.error == DecodingErrorThrown <==>
      transport.Delivered? && transport.response.Http? && IsSuccessStatus(transport.response.statusCode)
      && decode(transport.data).None?
  {
    match transport
    case Failed(timedOut) => Failure(UrlErrorThrown(timedOut))
    case Delivered(NonHttp, _) => Failure(ApiErrorThrown(InvalidResponse))
    case Delivered(Http(code), data) =>
      if !IsSuccessStatus(code) then
        Failure(ApiErrorThrown(ServerError("Server returned status code " + IntText(code))))
      else match decode(data)
        case Some(v) => Success(v)
        case None => Failure(DecodingErrorThrown)
  }

  /** The three catch clauses of `post`, in order; the last one catches everything,
      including the `ApiError`s thrown inside the `do` block. */
  function Catch(t: Thrown): (e: ApiError)
    ensures e == RequestTimeout <==> t == UrlErrorThrown(true)
    ensures e == DecodingError <==> t == DecodingErrorThrown
    ensures e in {RequestTimeout, DecodingError, UnknownError}
    // Whatever `ApiError` the `do` block threw, the caller sees `unknownError`.
    ensures t.ApiErrorThrown? ==> e == UnknownError
  {
    match t
    case UrlErrorThrown(true) => RequestTimeout
    case DecodingErrorThrown => DecodingError
    case _ => UnknownError
  }

  /** `ApiService.post`. `urlParses` says which strings `URL(string:)` accepts,
      `encoded` is what `JSONEncoder` made of the body (`None` if it threw). */
  function Post<T>(
    path: string, httpMethod: string, accessToken: Option<string>, encoded: Option<seq<Byte>>,
    urlParses: string -> bool, transport: Transport, decode: seq<Byte> -> Option<T>): (out: PostOutcome<T>)
    // No request without a URL and a body; the URL is the base followed by the path.
    ensures out.sent.Some? <==> urlParses(BASE_URL_STRING + path) && encoded.Some?
    ensures out.sent.Some? ==>
      out.sent.value == MakeRequest(BASE_URL_STRING + path, httpMethod, accessToken, encoded.value)
    ensures out.result == Failure(InvalidUrl) <==> !urlParses(BASE_URL_STRING + path)
    ensures urlParses(BASE_URL_STRING + path) && encoded.None? ==> out.result == Failure(UnknownError)
    // Success exactly for a 2xx response whose body decodes, and then it is the decoded value.
    ensures out.result.Success? <==>
      out.sent.Some? && transport.Delivered? && transport.response.Http?
      && IsSuccessStatus(transport.response.statusCode) && decode(transport.data).Some?
    ensures out.result.Success? ==> out.result.value == decode(transport.data).value
    // Classification of failed exchanges.
    ensures out.sent.Some? && transport == Failed(true) ==> out.result == Failure(RequestTimeout)
    ensures out.sent.Some? && transport == Failed(false) ==> out.result == Failure(UnknownError)
    ensures out.sent.Some? && transport.Delivered? && transport.response.NonHttp? ==>
      out.result == Failure(UnknownError)
    ensures (out.sent.Some? && transport.Delivered? && transport.response.Http?
             && !IsSuccessStatus(transport.response.statusCode)) ==> out.result == Failure(UnknownError)
    ensures (out.sent.Some? && transport.Delivered? && transport.response.Http?
             && IsSuccessStatus(transport.response.statusCode) && decode(transport.data).None?) ==>
      out.result == Failure(DecodingError)
    // What never comes out of it.
    ensures out.result.Failure? ==>
      out.result.error in {InvalidUrl, UnknownError, RequestTimeout, DecodingError}
  {
    var url := BASE_URL_STRING + path;
    if !urlParses(url) then PostOutcome(None, Failure(InvalidUrl))
    else if encoded.None? then PostOutcome(None, Failure(UnknownError))
    else
      var request := MakeRequest(url, httpMethod, accessToken, encoded.value);
      match Exchange(transport, decode)
      case Success(v) => PostOutcome(Some(request), Success(v))
      case Failure(t) => PostOutcome(Some(request), Failure(Catch(t)))
  }

  // ---------------------------------------------------------------------------
  // The status-code error that `post` means to throw never reaches its caller.

  /** A 500 from the server surfaces as `unknownError`, described as "Unknown Error!!",
      although `post` throws `serverError("Server returned status code 500")` for it. */
  lemma ServerErrorSwallowed<T>(path: string, urlParses: string -> bool, data: seq<Byte>, decode: seq<Byte> -> Option<T>)
    requires urlParses(BASE_URL_STRING + path)
    ensures Exchange(Delivered(Http(500), data), decode)
      == Failure(ApiErrorThrown(ServerError("Server returned status code 500")))
    ensures Post(path, "POST", None, Some([]), urlParses, Delivered(Http(500), data), decode).result
      == Failure(UnknownError)
  {
    assert DigitChar(0) == '0' && DigitChar(5) == '5';
    assert Decimal(5) == "5";
    assert Decimal(50) == "5" + "0";
    assert Decimal(500) == "50" + "0";
    assert IntText(500) == "500";
    assert "Server returned status code " + IntText(500) == "Server returned status code 500";
  }

  /** The catch clauses with the `ApiError`s thrown in the `do` block passed on,
      as the `throw` statements there intend. */
  function CatchIntended(t: Thrown): ApiError
  {
    match t
    case ApiErrorThrown(e) => e
    case _ => Catch(t)
  }

  /** `post` with `CatchIntended` in place of `Catch`. */
  function PostIntended<T>(
    path: string, httpMethod: string, accessToken: Option<string>, encoded: Option<seq<Byte>>,
    urlParses: string -> bool, transport: Transport, decode: seq<Byte> -> Option<T>): (out: PostOutcome<T>)
    ensures out.sent == Post(path, httpMethod, accessToken, encoded, urlParses, transport, decode).sent
    ensures out.result.Success? <==>
      Post(path, httpMethod, accessToken, encoded, urlParses, transport, decode).result.Success?
    ensures out.sent.Some? && transport.Delivered? && transport.response.NonHttp? ==>
      out.result == Failure(InvalidResponse)
    ensures (out.sent.Some? && transport.Delivered? && transport.response.Http?
             && !IsSuccessStatus(transport.response.statusCode)) ==>
      out.result == Failure(ServerError("Server returned status code " + IntText(transport.response.statusCode)))
    ensures out.sent.Some? && transport == Failed(true) ==> out.result == Failure(RequestTimeout)
  {
    var url := BASE_URL_STRING + path;
    if !urlParses(url) then PostOutcome(None, Failure(InvalidUrl))
    else if encoded.None? then PostOutcome(None, Failure(UnknownError))
    else
      var request := MakeRequest(url, httpMethod, accessToken, encoded.value);
      match Exchange(transport, decode)
      case Success(v) => PostOutcome(Some(request), Success(v))
      case Failure(t) => PostOutcome(Some(request), Failure(CatchIntended(t)))
  }
}
