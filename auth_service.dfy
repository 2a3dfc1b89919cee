/** The authentication calls (login, session creation, job creation), which
    check the `{success, data}` envelope of what `post` returned, and the upload
    client: the multipart body, the checksum field, the status check and the
    progress report. `post` itself, the file read, SHA-256, the UUID and the
    upload transport are inputs. */
module AuthService {
  import opened Basics
  import opened Models
  import opened ApiService

  // ---------------------------------------------------------------------------
  // The three calls of the login flow

  /** The arguments of one `ApiService.post` call: path, JSON body and bearer token. */
  datatype ApiCall = ApiCall(path: string, body: RequestBody, accessToken: Option<string>)

  const LOGIN_PATH := "/api/v1/auth/login"
  const SESSION_PATH := "/api/v1/session"

  function LoginCall(email: string, password: string): ApiCall
  {
    ApiCall(LOGIN_PATH, LoginRequest(email, password), None)
  }

  function CreateSessionCall(accessToken: string): ApiCall
  {
    ApiCall(SESSION_PATH, SessionRequest("Audio Recording", "Demo Recording"), Some(accessToken))
  }

  function CreateJobPath(sessionId: string): string
  {
    SESSION_PATH + "/" + sessionId + "/create-job"
  }

  function CreateUploadJobCall(sessionId: string, accessToken: string): ApiCall
  {
    ApiCall(CreateJobPath(sessionId), EmptyRequest, Some(accessToken))
  }

  /** The session id can be read back from the job-creation path. */
  lemma CreateJobPathNamesSession(sessionId: string)
    ensures CreateJobPath(sessionId)[..|SESSION_PATH| + 1] == SESSION_PATH + "/"
    ensures CreateJobPath(sessionId)[|SESSION_PATH| + 1..|CreateJobPath(sessionId)| - 11] == sessionId
    ensures CreateJobPath(sessionId)[|CreateJobPath(sessionId)| - 11..] == "/create-job"
  {
    var p := CreateJobPath(sessionId);
    assert p == (SESSION_PATH + "/") + sessionId + "/create-job";
  }

  /** The three calls of the flow go to three different paths; only the login call goes
      without a bearer token, and it carries the credentials it was given. */
  lemma FlowCallsDistinct(email: string, password: string, accessToken: string, sessionId: string)
    ensures LoginCall(email, password).accessToken.None?
    ensures LoginCall(email, password).body == LoginRequest(email, password)
    ensures CreateSessionCall(accessToken).accessToken == Some(accessToken)
    ensures CreateUploadJobCall(sessionId, accessToken).accessToken == Some(accessToken)
    ensures LoginCall(email, password).path != CreateSessionCall(accessToken).path
    ensures LoginCall(email, password).path != CreateUploadJobCall(sessionId, accessToken).path
    ensures CreateSessionCall(accessToken).path != CreateUploadJobCall(sessionId, accessToken).path
  {
    assert LOGIN_PATH[8] == 'a' && SESSION_PATH[8] == 's';
    assert CreateJobPath(sessionId)[8] == 's';
    assert |CreateJobPath(sessionId)| > |SESSION_PATH|;
  }

  /** `AuthService.login` given what `post` returned or threw. */
  function Login(posted: Result<LoginResponse, ApiError>): (r: Result<Session, ApiError>)
    ensures posted.Failure? ==> r == Failure(posted.error)
    ensures posted.Success? ==>
      (r == Failure(InvalidCredentials) <==> !posted.value.success || posted.value.data.None?)
    ensures r.Success? <==> posted.Success? && posted.value.success && posted.value.data.Some?
    ensures r.Success? ==> r.value == posted.value.data.value
  {
    match posted
    case Failure(e) => Failure(e)
    case Success(response) =>
      if response.success && response.data.Some? then Success(response.data.value)
      else Failure(InvalidCredentials)
  }

  /** `AuthService.createSession` given what `post` returned or threw. */
  function CreateSession(posted: Result<SessionResponse, ApiError>): (r: Result<SessionData, ApiError>)
    ensures posted.Failure? ==> r == Failure(posted.error)
    ensures posted.Success? ==>
      (r == Failure(ServerError("server return failed")) <==> !posted.value.success)
    ensures r.Success? <==> posted.Success? && posted.value.success
    ensures r.Success? ==> r.value == posted.value.data
  {
    match posted
    case Failure(e) => Failure(e)
    case Success(response) =>
      if response.success then Success(response.data) else Failure(ServerError("server return failed"))
  }

  /** `AuthService.createUploadJob` given what `post` returned or threw. */
  function CreateUploadJob(posted: Result<CreateJobResponse, ApiError>): (r: Result<JobData, ApiError>)
    ensures posted.Failure? ==> r == Failure(posted.error)
    ensures posted.Success? ==>
      (r == Failure(ServerError("Failed to create upload job")) <==> !posted.value.success || posted.value.data.None?)
    ensures r.Success? <==> posted.Success? && posted.value.success && posted.value.data.Some?
    ensures r.Success? ==> r.value == posted.value.data.value
  {
    match posted
    case Failure(e) => Failure(e)
    case Success(response) =>
      if response.success && response.data.Some? then Success(response.data.value)
      else Failure(ServerError("Failed to create upload job"))
  }

  // ---------------------------------------------------------------------------
  // Checksum text: each digest byte as two lowercase hex digits

  predicate IsLowerHex(c: char) { '0' <= c <= '9' || 'a' <= c <= 'f' }

  function HexDigit(d: nat): (c: char)
    requires d < 16
    ensures IsLowerHex(c)
  {
    if d < 10 then (d + '0' as int) as char else (d - 10 + 'a' as int) as char
  }

  function ByteHex(b: Byte): string
  {
    [HexDigit(b / 16), HexDigit(b % 16)]
  }

  /** `SHA256.hash(data:).map { String(format: "%02x", $0) }.joined()` after hashing. */
  function Checksum(digest: seq<Byte>): (s: string)
    ensures |s| == 2 * |digest|
    ensures forall i :: 0 <= i < |s| ==> IsLowerHex(s[i])
  {
    if digest == [] then "" else ByteHex(digest[0]) + Checksum(digest[1..])
  }

  function HexValue(c: char): (v: Option<nat>)
    ensures v.Some? <==> IsLowerHex(c)
    ensures v.Some? ==> v.value < 16 && HexDigit(v.value) == c
  {
    if '0' <= c <= '9' then Some(c as int - '0' as int)
    else if 'a' <= c <= 'f' then Some(c as int - 'a' as int + 10)
    else None
  }

  /** Reads lowercase hex text back into bytes. */
  function Unhex(s: string): Option<seq<Byte>>
  {
    if |s| < 2 then (if s == [] then Some([]) else None)
    else match (HexValue(s[0]), HexValue(s[1]), Unhex(s[2..]))
      case (Some(hi), Some(lo), Some(rest)) => Some([hi * 16 + lo] + rest)
      case _ => None
  }

  lemma {:induction false} ChecksumRoundTrip(digest: seq<Byte>)
    ensures Unhex(Checksum(digest)) == Some(digest)
  {
    if digest != [] {
      var b := digest[0];
      var s := Checksum(digest);
      assert s[..2] == ByteHex(b) && s[2..] == Checksum(digest[1..]);
      assert HexValue(HexDigit(b / 16)) == Some(b / 16);
      assert HexValue(HexDigit(b % 16)) == Some(b % 16);
      ChecksumRoundTrip(digest[1..]);
      assert [b] + digest[1..] == digest;
    }
  }

  /** Different digests never print the same checksum. */
  lemma ChecksumInjective(a: seq<Byte>, b: seq<Byte>)
    requires Checksum(a) == Checksum(b)
    ensures a == b
  {
    ChecksumRoundTrip(a);
    ChecksumRoundTrip(b);
  }

  lemma Sha256ChecksumLength(digest: seq<Byte>)
    requires |digest| == 32
    ensures |Checksum(digest)| == 64
  {
  }

  // ---------------------------------------------------------------------------
  // The multipart body

  const MIME_TYPE := "audio/m4a"

  /** The keys of the metadata dictionary, in declaration order. */
  const FIELD_NAMES: seq<string> := ["size", "mimetype", "originalname", "encoding", "chunkIndex", "totalChunks", "checksum"]

  /** An iteration order of the metadata dictionary: every key once, in some order. */
  predicate IsFieldOrder(order: seq<string>)
  {
    multiset(order) == multiset(FIELD_NAMES)
  }

  lemma OrderedKeysPresent(order: seq<string>, fields: map<string, string>)
    requires IsFieldOrder(order)
    requires forall k :: k in FIELD_NAMES ==> k in fields
    ensures forall k :: k in order ==> k in fields
  {
    forall k | k in order ensures k in fields {
      assert k in multiset(order);
    }
  }

  /** The metadata dictionary, built from the one buffer that is also embedded and hashed. */
  function Fields(fileData: seq<Byte>, filename: string, checksum: string): (fields: map<string, string>)
    ensures forall k :: k in fields <==> k in FIELD_NAMES
  {
    map[
      "size" := Decimal(|fileData|),
      "mimetype" := MIME_TYPE,
      "originalname" := filename,
      "encoding" := "7bit",
      "chunkIndex" := "0",
      "totalChunks" := "1",
      "checksum" := checksum
    ]
  }

  /** The declared size reads back as the length of the buffer. */
  lemma SizeFieldIsLength(fileData: seq<Byte>, filename: string, checksum: string)
    ensures AllDigits(Fields(fileData, filename, checksum)["size"])
    ensures DigitsValue(Fields(fileData, filename, checksum)["size"]) == |fileData|
  {
    DecimalRoundTrip(|fileData|);
  }

  function Boundary(uuid: string): string { "Boundary-" + uuid }

  /** `Data.append(_ string: String)`: the UTF-8 bytes of the string go at the end.
      What was there before is kept, and what was appended reads back as the string. */
  function AppendString(data: seq<Byte>, s: string): (r: seq<Byte>)
    ensures |r| >= |data| && r[..|data|] == data
    ensures DecodeUtf8(r[|data|..]) == Some(s)
  {
    Utf8RoundTrip(s);
    assert (data + Utf8(s))[|data|..] == Utf8(s);
    data + Utf8(s)
  }

  function DelimiterLine(boundary: string): string { "--" + boundary + "\r\n" }

  function FileDispositionLine(filename: string): string
  {
    "Content-Disposition: form-data; name=\"file\"; filename=\"" + filename + "\"\r\n"
  }

  function ContentTypeLines(mimeType: string): string { "Content-Type: " + mimeType + "\r\n\r\n" }

  function FieldDispositionLines(name: string): string
  {
    "Content-Disposition: form-data; name=\"" + name + "\"\r\n\r\n"
  }

  function ValueLine(value: string): string { value + "\r\n" }

  function FilePartHeader(boundary: string, filename: string): string
  {
    DelimiterLine(boundary) + FileDispositionLine(filename) + ContentTypeLines(MIME_TYPE)
  }

  function FieldPart(boundary: string, name: string, value: string): string
  {
    DelimiterLine(boundary) + FieldDispositionLines(name) + ValueLine(value)
  }

  /** The dictionary's value for `key`; every key the body iterates over is present. */
  function Lookup(fields: map<string, string>, key: string): string
  {
    if key in fields then fields[key] else ""
  }

  /** The metadata parts for the keys in `order`, one after the other. */
  function FieldParts(boundary: string, fields: map<string, string>, order: seq<string>): string
  {
    if order == [] then ""
    else FieldParts(boundary, fields, order[..|order| - 1])
         + FieldPart(boundary, order[|order| - 1], Lookup(fields, order[|order| - 1]))
  }

  function ClosingDelimiter(boundary: string): string { "--" + boundary + "--\r\n" }

  const CRLF := "\r\n"

  lemma Utf8Append3(a: string, b: string, c: string)
    ensures Utf8(a + b + c) == Utf8(a) + Utf8(b) + Utf8(c)
  {
    Utf8Append(a, b);
    Utf8Append(a + b, c);
  }

  /** The body as a byte layout: the file part's header text, the file bytes verbatim,
      then the text of the metadata parts and the closing delimiter. */
  function MultipartBody(
    boundary: string, filename: string, fileData: seq<Byte>, fields: map<string, string>, order: seq<string>): seq<Byte>
  {
    Utf8(FilePartHeader(boundary, filename)) + fileData
    + Utf8("\r\n" + FieldParts(boundary, fields, order) + ClosingDelimiter(boundary))
  }

  lemma SeqPrefix(x: seq<Byte>, y: seq<Byte>)
    ensures (x + y)[..|x|] == x
  {
  }

  lemma SeqSuffix(x: seq<Byte>, y: seq<Byte>)
    ensures (x + y)[|x|..] == y
  {
  }

  lemma SliceMiddle(x: seq<Byte>, y: seq<Byte>, z: seq<Byte>)
    ensures (x + y + z)[|x|..|x| + |y|] == y
  {
  }

  lemma FieldPartsSnoc(boundary: string, fields: map<string, string>, order: seq<string>, i: nat)
    requires i < |order|
    ensures FieldParts(boundary, fields, order[..i + 1])
      == FieldParts(boundary, fields, order[..i]) + FieldPart(boundary, order[i], Lookup(fields, order[i]))
  {
    assert order[..i + 1][..i] == order[..i];
  }

  /** The body-building part of `uploadFile`, append by append. */
  method BuildBody(
    boundary: string, filename: string, fileData: seq<Byte>, fields: map<string, string>, order: seq<string>)
    returns (body: seq<Byte>)
    requires forall k :: k in order ==> k in fields
    ensures body == MultipartBody(boundary, filename, fileData, fields, order)
  {
    body := [];
    body := AppendString(body, DelimiterLine(boundary));
    body := AppendString(body, FileDispositionLine(filename));
    body := AppendString(body, ContentTypeLines(MIME_TYPE));
    body := body + fileData;
    body := AppendString(body, CRLF);
    ghost var head := Utf8(FilePartHeader(boundary, filename)) + fileData;
    HeaderStep(boundary, filename, fileData, fields, order);
    for i := 0 to |order|
      invariant body == head + Utf8(CRLF + FieldParts(boundary, fields, order[..i]))
    {
      var key := order[i];
      var value := fields[key];
      ghost var previous := body;
      body := AppendString(body, DelimiterLine(boundary));
      body := AppendString(body, FieldDispositionLines(key));
      body := AppendString(body, ValueLine(value));
      PartStep(head, previous, boundary, fields, order, i);
    }
    assert order[..|order|] == order;
    Utf8Append(CRLF + FieldParts(boundary, fields, order), ClosingDelimiter(boundary));
    ConcatAssoc(head, Utf8(CRLF + FieldParts(boundary, fields, order)), Utf8(ClosingDelimiter(boundary)));
    body := AppendString(body, ClosingDelimiter(boundary));
  }

  /** The file part's header, the file bytes and the line break before the first metadata part. */
  lemma HeaderStep(boundary: string, filename: string, fileData: seq<Byte>, fields: map<string, string>, order: seq<string>)
    ensures AppendString(
        AppendString(AppendString(AppendString([], DelimiterLine(boundary)), FileDispositionLine(filename)),
          ContentTypeLines(MIME_TYPE)) + fileData, CRLF)
      == Utf8(FilePartHeader(boundary, filename)) + fileData + Utf8(CRLF + FieldParts(boundary, fields, order[..0]))
  {
    var d, f, c := Utf8(DelimiterLine(boundary)), Utf8(FileDispositionLine(filename)), Utf8(ContentTypeLines(MIME_TYPE));
    Utf8Append3(DelimiterLine(boundary), FileDispositionLine(filename), ContentTypeLines(MIME_TYPE));
    assert CRLF + FieldParts(boundary, fields, order[..0]) == CRLF;
    assert [] + d == d;
  }

  /** One metadata part appended: the invariant of the loop in `BuildBody` carries over. */
  lemma PartStep(head: seq<Byte>, body: seq<Byte>, boundary: string, fields: map<string, string>, order: seq<string>, i: nat)
    requires i < |order|
    requires body == head + Utf8(CRLF + FieldParts(boundary, fields, order[..i]))
    ensures AppendString(AppendString(AppendString(body, DelimiterLine(boundary)), FieldDispositionLines(order[i])),
        ValueLine(Lookup(fields, order[i])))
      == head + Utf8(CRLF + FieldParts(boundary, fields, order[..i + 1]))
  {
    var key, value := order[i], Lookup(fields, order[i]);
    var before := CRLF + FieldParts(boundary, fields, order[..i]);
    AppendPartStep(head, before, boundary, key, value);
    FieldPartsSnoc(boundary, fields, order, i);
    ConcatAssoc(CRLF, FieldParts(boundary, fields, order[..i]), FieldPart(boundary, key, value));
  }

  /** One metadata part appended, as bytes. */
  lemma AppendPartStep(head: seq<Byte>, before: string, boundary: string, key: string, value: string)
    ensures head + Utf8(before) + Utf8(DelimiterLine(boundary)) + Utf8(FieldDispositionLines(key)) + Utf8(ValueLine(value))
      == head + Utf8(before + FieldPart(boundary, key, value))
  {
    var d, n, v := Utf8(DelimiterLine(boundary)), Utf8(FieldDispositionLines(key)), Utf8(ValueLine(value));
    var p := Utf8(before);
    Utf8Append3(DelimiterLine(boundary), FieldDispositionLines(key), ValueLine(value));
    Utf8Append(before, FieldPart(boundary, key, value));
    ConcatAssoc(head, p, d + n + v);
    ConcatAssoc(head + p, d + n, v);
    ConcatAssoc(head + p, d, n);
  }

  /** The body opens with the first delimiter line and ends with the closing delimiter. */
  lemma BodyFraming(
    boundary: string, filename: string, fileData: seq<Byte>, fields: map<string, string>, order: seq<string>)
    ensures var body := MultipartBody(boundary, filename, fileData, fields, order);
      var open := Utf8(DelimiterLine(boundary));
      var close := Utf8(ClosingDelimiter(boundary));
      |open| + |close| <= |body|
      && body[..|open|] == open
      && body[|body| - |close|..] == close
  {
    var d, f, c := Utf8(DelimiterLine(boundary)), Utf8(FileDispositionLine(filename)), Utf8(ContentTypeLines(MIME_TYPE));
    var h, t := Utf8(FilePartHeader(boundary, filename)), Utf8(CRLF + FieldParts(boundary, fields, order) + ClosingDelimiter(boundary));
    var a, close := Utf8(CRLF + FieldParts(boundary, fields, order)), Utf8(ClosingDelimiter(boundary));
    Utf8Append3(DelimiterLine(boundary), FileDispositionLine(filename), ContentTypeLines(MIME_TYPE));
    Utf8Append(CRLF + FieldParts(boundary, fields, order), ClosingDelimiter(boundary));
    ConcatAssoc(h, fileData, t);
    ConcatAssoc(d, f, c);
    ConcatAssoc(d, f + c, fileData + t);
    SeqPrefix(d, (f + c) + (fileData + t));
    ConcatAssoc(h + fileData, a, close);
    SeqSuffix(h + fileData + a, close);
  }

  /** The file bytes sit verbatim right after the file part's header. */
  lemma BodyEmbedsFile(
    boundary: string, filename: string, fileData: seq<Byte>, fields: map<string, string>, order: seq<string>)
    ensures var body := MultipartBody(boundary, filename, fileData, fields, order);
      var k := |Utf8(FilePartHeader(boundary, filename))|;
      k + |fileData| <= |body| && body[k..k + |fileData|] == fileData
  {
  }

  lemma {:induction false} FieldPartsAppend(boundary: string, fields: map<string, string>, xs: seq<string>, ys: seq<string>)
    ensures FieldParts(boundary, fields, xs + ys) == FieldParts(boundary, fields, xs) + FieldParts(boundary, fields, ys)
  {
    if ys == [] {
      assert xs + ys == xs;
    } else {
      var zs := xs + ys;
      var last := ys[|ys| - 1];
      assert zs[..|zs| - 1] == xs + ys[..|ys| - 1];
      FieldPartsAppend(boundary, fields, xs, ys[..|ys| - 1]);
      assert zs[|zs| - 1] == last;
      ConcatAssoc(FieldParts(boundary, fields, xs), FieldParts(boundary, fields, ys[..|ys| - 1]),
        FieldPart(boundary, last, Lookup(fields, last)));
    }
  }

  /** Splits the metadata text at the part of the key in position `j`. */
  lemma FieldPartsSplit(boundary: string, fields: map<string, string>, order: seq<string>, j: nat)
    requires j < |order|
    ensures FieldParts(boundary, fields, order)
      == FieldParts(boundary, fields, order[..j]) + FieldPart(boundary, order[j], Lookup(fields, order[j]))
         + FieldParts(boundary, fields, order[j + 1..])
  {
    assert order == order[..j] + [order[j]] + order[j + 1..];
    FieldPartsAppend(boundary, fields, order[..j] + [order[j]], order[j + 1..]);
    FieldPartsAppend(boundary, fields, order[..j], [order[j]]);
    assert [order[j]][..0] == [];
  }

  /** Every metadata key has its part in the body: the encoded text of that part
      is a contiguous run of the body's bytes. */
  lemma BodyHasField(
    boundary: string, filename: string, fileData: seq<Byte>, fields: map<string, string>, order: seq<string>, j: nat)
    requires j < |order|
    ensures var body := MultipartBody(boundary, filename, fileData, fields, order);
      var part := Utf8(FieldPart(boundary, order[j], Lookup(fields, order[j])));
      var at := |Utf8(FilePartHeader(boundary, filename))| + |fileData|
        + |Utf8(CRLF + FieldParts(boundary, fields, order[..j]))|;
      at + |part| <= |body| && body[at..at + |part|] == part
  {
    var before := CRLF + FieldParts(boundary, fields, order[..j]);
    var part := FieldPart(boundary, order[j], Lookup(fields, order[j]));
    var after := FieldParts(boundary, fields, order[j + 1..]) + ClosingDelimiter(boundary);
    var mid := FieldParts(boundary, fields, order[..j]);
    var rest := FieldParts(boundary, fields, order[j + 1..]);
    var close := ClosingDelimiter(boundary);
    FieldPartsSplit(boundary, fields, order, j);
    ConcatAssoc(CRLF, mid + part, rest);
    ConcatAssoc(CRLF, mid, part);
    ConcatAssoc(before + part, rest, close);
    assert CRLF + FieldParts(boundary, fields, order) + close == before + part + after;
    Utf8Append3(before, part, after);
    var head := Utf8(FilePartHeader(boundary, filename)) + fileData;
    var body := MultipartBody(boundary, filename, fileData, fields, order);
    var x := head + Utf8(before);
    ConcatAssoc(head, Utf8(before) + Utf8(part), Utf8(after));
    ConcatAssoc(head, Utf8(before), Utf8(part));
    assert body == x + Utf8(part) + Utf8(after);
    assert |x| == |Utf8(FilePartHeader(boundary, filename))| + |fileData| + |Utf8(before)|;
    SliceMiddle(x, Utf8(part), Utf8(after));
  }

  // ---------------------------------------------------------------------------
  // Sending the upload and checking its response

  const UPLOAD_URL_PREFIX := "https://app.cagnea.com/api/v1/session/"
  const UPLOAD_SEGMENT := "/upload/"
  const MULTIPART_PREFIX := "multipart/form-data; boundary="

  /** The upload endpoint; the session id and the job id can be read back from it. */
  function UploadUrl(sessionId: string, jobId: string): (u: string)
    ensures |u| == |UPLOAD_URL_PREFIX| + |sessionId| + |UPLOAD_SEGMENT| + |jobId|
    ensures u[..|UPLOAD_URL_PREFIX|] == UPLOAD_URL_PREFIX
    ensures u[|UPLOAD_URL_PREFIX|..|UPLOAD_URL_PREFIX| + |sessionId|] == sessionId
    ensures u[|UPLOAD_URL_PREFIX| + |sessionId|..|u| - |jobId|] == UPLOAD_SEGMENT
    ensures u[|u| - |jobId|..] == jobId
  {
    ConcatAssoc(UPLOAD_URL_PREFIX, sessionId, UPLOAD_SEGMENT);
    ConcatAssoc(UPLOAD_URL_PREFIX + sessionId, UPLOAD_SEGMENT, jobId);
    UPLOAD_URL_PREFIX + sessionId + UPLOAD_SEGMENT + jobId
  }

  /** The errors `uploadFile` throws: `URLError(.badURL)`, the file read's error,
      the transport's error (with its localized description) and `URLError(.badServerResponse)`. */
  datatype UploadError = BadUrl | FileUnreadable | TransportFailure(description: string) | BadServerResponse

  /** What `URLSession.upload(for:from:)` did: throw, or deliver a response with its body. */
  datatype UploadTransport = TransferFailed(description: string) | TransferDelivered(response: HttpResponse, data: seq<Byte>)

  datatype UploadRequest = UploadRequest(url: string, httpMethod: string, headers: map<string, string>, body: seq<Byte>)

  /** The status check at the end of `uploadFile`. */
  function CheckUploadResponse(response: HttpResponse, data: seq<Byte>): (r: Result<seq<Byte>, UploadError>)
    ensures r.Success? <==> response.Http? && 200 <= response.statusCode <= 299
    ensures r.Success? ==> r.value == data
    ensures r.Failure? ==> r.error == BadServerResponse
  {
    match response
    case NonHttp => Failure(BadServerResponse)
    case Http(code) => if IsSuccessStatus(code) then Success(data) else Failure(BadServerResponse)
  }

  /** The two header fields of the upload: the bearer token and the multipart boundary. */
  function UploadHeaders(accessToken: string, boundary: string): (h: map<string, string>)
    ensures h.Keys == {"Authorization", "Content-Type"}
    ensures h["Authorization"] == "Bearer " + accessToken
    ensures var t := h["Content-Type"];
      |t| >= |boundary| && t[|t| - |boundary|..] == boundary && t[..|t| - |boundary|] == MULTIPART_PREFIX
  {
    map["Authorization" := "Bearer " + accessToken, "Content-Type" := MULTIPART_PREFIX + boundary]
  }

  /** `UploadService.uploadFile`. `urlParses` stands for `URL(string:)`, `fileContents` for
      `Data(contentsOf:)` (`None` if it threw), `sha256` for CryptoKit's digest, `uuid` for
      `UUID().uuidString`, `order` for the dictionary's iteration order and `transport`
      for the outcome of the upload task. Returns the request put on the wire, if any. */
  method UploadFile(
    sessionId: string, jobId: string, accessToken: string, fileUrl: Url,
    urlParses: string -> bool, fileContents: Option<seq<Byte>>, sha256: seq<Byte> -> seq<Byte>,
    uuid: string, order: seq<string>, transport: UploadTransport)
    returns (sent: Option<UploadRequest>, result: Result<seq<Byte>, UploadError>)
    requires IsFieldOrder(order)
    ensures !urlParses(UploadUrl(sessionId, jobId)) ==> sent.None? && result == Failure(BadUrl)
    ensures urlParses(UploadUrl(sessionId, jobId)) && fileContents.None? ==>
      sent.None? && result == Failure(FileUnreadable)
    ensures sent.Some? <==> urlParses(UploadUrl(sessionId, jobId)) && fileContents.Some?
    ensures sent.Some? ==>
      var data := fileContents.value;
      var fields := Fields(data, fileUrl.name, Checksum(sha256(data)));
      sent.value == UploadRequest(
        UploadUrl(sessionId, jobId), "POST", UploadHeaders(accessToken, Boundary(uuid)),
        MultipartBody(Boundary(uuid), fileUrl.name, data, fields, order))
    ensures sent.Some? && transport.TransferFailed? ==> result == Failure(TransportFailure(transport.description))
    ensures sent.Some? && transport.TransferDelivered? ==>
      result == CheckUploadResponse(transport.response, transport.data)
  {
    var url := UploadUrl(sessionId, jobId);
    if !urlParses(url) {
      return None, Failure(BadUrl);
    }
    if fileContents.None? {
      return None, Failure(FileUnreadable);
    }
    var fileData := fileContents.value;
    var checksum := Checksum(sha256(fileData));
    var boundary := Boundary(uuid);
    var filename := fileUrl.name;
    var fields := Fields(fileData, filename, checksum);
    OrderedKeysPresent(order, fields);
    var body := BuildBody(boundary, filename, fileData, fields, order);
    var request := UploadRequest(url, "POST", UploadHeaders(accessToken, boundary), body);
    sent := Some(request);
    match transport
    case TransferFailed(description) =>
      result := Failure(TransportFailure(description));
    case TransferDelivered(response, data) =>
      result := CheckUploadResponse(response, data);
  }

  // ---------------------------------------------------------------------------
  // The progress delegate

  /** What `UploadProgressDelegate` hands to the progress handler: nothing when the expected
      total is not positive, otherwise the plain ratio, unclamped. */
  function ProgressReport(totalBytesSent: int, totalBytesExpectedToSend: int): (p: Option<real>)
    ensures p.None? <==> totalBytesExpectedToSend <= 0
    ensures p.Some? ==> p.value * totalBytesExpectedToSend as real == totalBytesSent as real
  {
    if totalBytesExpectedToSend <= 0 then None
    else Some(totalBytesSent as real / totalBytesExpectedToSend as real)
  }

  /** While the bytes sent stay within the expected total, the report is a fraction in [0, 1],
      it is 1 once everything is sent, and it grows with the bytes sent. */
  lemma ProgressReportBounds(sent: int, sent': int, expected: int)
    requires 0 <= sent <= sent' <= expected && expected > 0
    ensures 0.0 <= ProgressReport(sent, expected).value <= ProgressReport(sent', expected).value <= 1.0
    ensures sent' == expected ==> ProgressReport(sent', expected).value == 1.0
  {
    var e := expected as real;
    var p, p' := sent as real / e, sent' as real / e;
    assert p * e == sent as real && p' * e == sent' as real;
    assert p <= p';
    assert p' <= 1.0;
  }
}
