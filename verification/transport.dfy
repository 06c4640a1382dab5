/**
 * The alpha client's transport: `parseRequest` turns a pending request into
 * the final URL, headers and body (options, receive window, API-key header,
 * timestamp and HMAC signature), and `callAPI` sends it and sorts the
 * response into data or an API error.
 *
 * What the model cannot see is passed in through `Env`: the URL encoder
 * `url.Values.Encode`, the HMAC `common.Hmac`, the clock, the HTTP round trip
 * and the decoding and validity test of the error envelope.
 */
module Transport {
  import opened Wrappers
  import opened Numbers
  import opened UrlValues
  import opened Requests

  const BaseAPIMainURL: string := "https://api.binance.com"
  const BaseAPITestnetURL: string := "https://testnet.binance.vision"

  const APIKeyHeader: string := "X-MBX-APIKEY"
  const ContentTypeHeader: string := "Content-Type"
  const FormContentType: string := "application/x-www-form-urlencoded"

  /** The client configuration read by every call. */
  datatype Client = Client(apiKey: string, secretKey: string, baseURL: string, timeOffset: Int64)

  /** `NewClient`: production endpoint, no clock correction. */
  function NewClient(apiKey: string, secretKey: string): (c: Client)
    ensures c.apiKey == apiKey && c.secretKey == secretKey
    ensures c.baseURL == BaseAPIMainURL && c.timeOffset == 0
  {
    Client(apiKey, secretKey, BaseAPIMainURL, 0)
  }

  type Header = map<string, string>

  /** The fields `json.Unmarshal` fills in `common.APIError`. */
  datatype ErrorFields = ErrorFields(code: Int64, message: string)

  /** What the HTTP layer hands back: status, the whole body, and the outcome of closing it. */
  datatype HttpResponse = HttpResponse(status: int, data: string, closeError: Option<string>)

  /** The HTTP request handed to the HTTP layer. */
  datatype Outgoing = Outgoing(httpMethod: string, url: string, header: Header, body: string)

  /** Collaborators outside the model. */
  datatype Env = Env(
    encode: Values -> string,                          // url.Values.Encode
    hmac: (string, string) -> Option<string>,          // common.Hmac(key, message)
    nowMillis: Int64,                                  // time.Now().UnixMilli()
    roundTrip: Outgoing -> Result<HttpResponse, string>, // NewRequest, Do and ReadAll
    unmarshalAPIError: string -> ErrorFields,          // json.Unmarshal into APIError
    isValidAPIError: ErrorFields -> bool)              // APIError.IsValid

  datatype Error =
    | SigningError
    | TransportError(reason: string)
    | APIError(code: Int64, message: string, response: Option<string>)
    | DecodeError

  /** The outcome of `parseRequest`: the request's final query map, URL, headers and body. */
  datatype Prepared = Prepared(query: Values, fullURL: string, header: Header, body: string)

  /**
   * The query after the receive window step: a positive window becomes the
   * only `recvWindow` value; otherwise the query is left exactly as it was.
   */
  function QueryWithRecvWindow(r: Request): (q: Values)
    ensures Lookup(q, "recvWindow")
         == (if r.recvWindow > 0 then [Decimal(r.recvWindow)] else Lookup(r.query, "recvWindow"))
    ensures forall k :: k != "recvWindow" ==> Lookup(q, k) == Lookup(r.query, k)
    ensures r.recvWindow > 0 ==> q.Keys == r.query.Keys + {"recvWindow"}
    ensures r.recvWindow <= 0 ==> q == r.query
  {
    if r.recvWindow > 0 then SetParam(r, "recvWindow", Int(r.recvWindow)).query else r.query
  }

  /** The body sent: the raw body verbatim when there is one, else the encoded form. */
  function BodyOf(r: Request, form: string): string
  {
    if r.rawBody.Some? then r.rawBody.value else form
  }

  /** The headers: a form content type for an encoded form body, and the API key for keyed levels. */
  function HeaderOf(c: Client, r: Request, form: string): (h: Header)
    ensures ContentTypeHeader in h <==> r.rawBody.None? && form != ""
    ensures ContentTypeHeader in h ==> h[ContentTypeHeader] == FormContentType
    ensures APIKeyHeader in h <==> r.secType != SecNone
    ensures APIKeyHeader in h ==> h[APIKeyHeader] == c.apiKey
    ensures h.Keys <= {ContentTypeHeader, APIKeyHeader}
  {
    var h := if r.rawBody.None? && form != "" then map[ContentTypeHeader := FormContentType] else map[];
    assert APIKeyHeader !in h by { assert APIKeyHeader[0] != ContentTypeHeader[0]; }
    if r.secType == SecSigned || r.secType == SecAPIKey then h[APIKeyHeader := c.apiKey]
    else assert r.secType == SecNone; h
  }

  /** The timestamp of a signed call: local clock minus the client's offset, in `int64`. */
  function Timestamp(c: Client, env: Env): Int64
  {
    Sub64(env.nowMillis, c.timeOffset)
  }

  /** The encoded query followed by the timestamp, with `&` between them only when needed. */
  function TimestampedQuery(encoded: string, ts: Int64): (s: string)
    ensures encoded == "" ==> s == "timestamp=" + Decimal(ts)
    ensures encoded != "" ==> s == encoded + "&timestamp=" + Decimal(ts)
  {
    (if encoded != "" then encoded + "&" else "") + "timestamp=" + Decimal(ts)
  }

  /** The text the HMAC is taken over: the timestamped query, then the encoded form. */
  function SigningPayload(c: Client, q: Values, form: string, env: Env): string
  {
    TimestampedQuery(env.encode(q), Timestamp(c, env)) + form
  }

  /** The `signature=<sig>` pair as `url.Values.Encode` renders it. */
  function SignatureParam(env: Env, sig: string): string
  {
    env.encode(map["signature" := [sig]])
  }

  /** The query string of a signed call, or the signing error. */
  function SignedQuery(c: Client, q: Values, form: string, env: Env): Result<string, Error>
  {
    var withTs := TimestampedQuery(env.encode(q), Timestamp(c, env));
    match env.hmac(c.secretKey, withTs + form)
    case None => Failure(SigningError)
    case Some(sig) =>
      var v := SignatureParam(env, sig);
      Success(if withTs == "" then v else withTs + "&" + v)
  }

  /** The query string sent: signed calls get timestamp and signature, the others the plain encoding. */
  function QueryString(c: Client, r: Request, q: Values, form: string, env: Env): Result<string, Error>
  {
    if r.secType == SecSigned then SignedQuery(c, q, form, env) else Success(env.encode(q))
  }

  /** Base URL and endpoint, then `?` and the query string only when it is non-empty. */
  function FullURL(base: string, endpoint: string, qs: string): (url: string)
    ensures qs == "" ==> url == base + endpoint
    ensures qs != "" ==> url == base + endpoint + "?" + qs
  {
    var u := base + endpoint;
    if qs != "" then u + "?" + qs else u
  }

  /** The query string of a URL whose path part is `prefix`: the text after a `?` there, or "". */
  function QueryPart(url: string, prefix: string): string
  {
    if |url| > |prefix| && url[|prefix|] == '?' then url[|prefix| + 1..] else ""
  }

  /**
   * The query string can be read back from the URL: the URL starts with
   * base and endpoint, a `?` follows them exactly when the query string is
   * non-empty, and the text after it is the query string.
   */
  lemma FullURLQueryReadBack(base: string, endpoint: string, qs: string)
    ensures var url := FullURL(base, endpoint, qs);
            && |url| >= |base + endpoint| && url[..|base + endpoint|] == base + endpoint
            && ((|url| > |base + endpoint| && url[|base + endpoint|] == '?') <==> qs != "")
            && QueryPart(url, base + endpoint) == qs
  {
    var p := base + endpoint;
    var url := FullURL(base, endpoint, qs);
    if qs != "" {
      assert url == p + ['?'] + qs;
      assert url[|p|] == '?';
      assert url[|p| + 1..] == qs;
    } else {
      assert url == p;
    }
  }

  /**
   * `parseRequest`. Options are applied first; the call fails exactly when
   * it is signed and the HMAC fails; on success the API-key header is
   * present exactly for keyed levels, the content type exactly for a
   * non-empty encoded form without raw body, the body is the raw body or the
   * encoded form, and `recvWindow` is rewritten only for a positive window.
   */
  function ParseRequest(c: Client, r0: Request, opts: seq<RequestOption>, env: Env): (res: Result<Prepared, Error>)
    ensures var r := ApplyOptions(r0, opts);
            res.Failure? <==>
              r.secType == SecSigned
              && env.hmac(c.secretKey, SigningPayload(c, QueryWithRecvWindow(r), env.encode(r.form), env)).None?
    ensures res.Failure? ==> res.error == SigningError
    ensures res.Success? ==>
              var r := ApplyOptions(r0, opts);
              var form := env.encode(r.form);
              var p := res.value;
              && (APIKeyHeader in p.header <==> r.secType != SecNone)
              && (APIKeyHeader in p.header ==> p.header[APIKeyHeader] == c.apiKey)
              && (ContentTypeHeader in p.header <==> r.rawBody.None? && form != "")
              && p.body == (if r.rawBody.Some? then r.rawBody.value else form)
              && Lookup(p.query, "recvWindow")
                 == (if r.recvWindow > 0 then [Decimal(r.recvWindow)] else Lookup(r.query, "recvWindow"))
              && (forall k :: k != "recvWindow" ==> Lookup(p.query, k) == Lookup(r.query, k))
              && p.query.Keys == r.query.Keys + (if r.recvWindow > 0 then {"recvWindow"} else {})
              && (ContentTypeHeader in p.header ==> p.header[ContentTypeHeader] == FormContentType)
              && p.header.Keys <= {ContentTypeHeader, APIKeyHeader}
  {
    var r := ApplyOptions(r0, opts);
    var form := env.encode(r.form);
    var q := QueryWithRecvWindow(r);
    match QueryString(c, r, q, form, env)
    case Failure(e) => Failure(e)
    case Success(qs) =>
      Success(Prepared(q, FullURL(c.baseURL, r.endpoint, qs), HeaderOf(c, r, form), BodyOf(r, form)))
  }

  /** Options act only through the request they modify: they run before everything else. */
  lemma OptionsApplyFirst(c: Client, r: Request, opts: seq<RequestOption>, env: Env)
    ensures ParseRequest(c, r, opts, env) == ParseRequest(c, ApplyOptions(r, opts), [], env)
  {
  }

  /** Of several `WithRecvWindow` options only the last one matters. */
  lemma LastRecvWindowWins(c: Client, r: Request, a: seq<RequestOption>, b: seq<RequestOption>, env: Env)
    requires |a| > 0 && |b| > 0 && a[|a| - 1] == b[|b| - 1]
    ensures ParseRequest(c, r, a, env) == ParseRequest(c, r, b, env)
  {
    assert ApplyOptions(r, a) == ApplyOptions(r, b);
  }

  /**
   * A signed request that parses has a URL with a `?`, the timestamp as the
   * last parameter before the signature, and the signature, the HMAC of the
   * timestamped query followed by the encoded form, as the last parameter.
   */
  lemma SignedURLShape(c: Client, r0: Request, opts: seq<RequestOption>, env: Env)
    requires ApplyOptions(r0, opts).secType == SecSigned
    requires ParseRequest(c, r0, opts, env).Success?
    ensures var r := ApplyOptions(r0, opts);
            var q := QueryWithRecvWindow(r);
            var form := env.encode(r.form);
            var withTs := TimestampedQuery(env.encode(q), Timestamp(c, env));
            && env.hmac(c.secretKey, withTs + form).Some?
            && ParseRequest(c, r0, opts, env).value.fullURL
               == c.baseURL + r.endpoint + "?" + withTs + "&"
                  + SignatureParam(env, env.hmac(c.secretKey, withTs + form).value)
  {
  }

  /** An unsigned request carries neither timestamp nor signature: its query string is the plain encoding. */
  lemma UnsignedURLShape(c: Client, r0: Request, opts: seq<RequestOption>, env: Env)
    requires ApplyOptions(r0, opts).secType != SecSigned
    ensures ParseRequest(c, r0, opts, env).Success?
    ensures var r := ApplyOptions(r0, opts);
            ParseRequest(c, r0, opts, env).value.fullURL
            == FullURL(c.baseURL, r.endpoint, env.encode(QueryWithRecvWindow(r)))
  {
  }

  /** `parseRequest`'s test for an empty query string after the timestamp is appended never succeeds. */
  lemma TimestampedQueryNonEmpty(encoded: string, ts: Int64)
    ensures TimestampedQuery(encoded, ts) != ""
  {
  }

  /**
   * A raw body is not what gets signed: the URL is the same whatever raw
   * body the request carries, because the payload uses the encoded form.
   */
  lemma RawBodyNotSigned(c: Client, r: Request, raw: Option<string>, opts: seq<RequestOption>, env: Env)
    ensures ParseRequest(c, r, opts, env).Success? <==> ParseRequest(c, r.(rawBody := raw), opts, env).Success?
    ensures ParseRequest(c, r, opts, env).Success? ==>
            ParseRequest(c, r, opts, env).value.fullURL == ParseRequest(c, r.(rawBody := raw), opts, env).value.fullURL
  {
    assert ApplyOptions(r.(rawBody := raw), opts) == ApplyOptions(r, opts).(rawBody := raw);
  }

  /**
   * Splits `s` at the last occurrence of `sep`, as a server does to strip
   * the trailing signature from a query string.
   */
  function SplitAtLast(s: string, sep: char): (r: Option<(string, string)>)
    ensures r.None? <==> sep !in s
    ensures r.Some? ==> s == r.value.0 + [sep] + r.value.1 && sep !in r.value.1
    decreases |s|
  {
    if |s| == 0 then None
    else if s[|s| - 1] == sep then Some((s[..|s| - 1], ""))
    else
      match SplitAtLast(s[..|s| - 1], sep)
      case None => None
      case Some((a, b)) => Some((a, b + [s[|s| - 1]]))
  }

  lemma {:induction false} SplitAtLastOfJoin(a: string, sep: char, b: string)
    requires sep !in b
    ensures SplitAtLast(a + [sep] + b, sep) == Some((a, b))
    decreases |b|
  {
    var s := a + [sep] + b;
    if |b| > 0 {
      var b' := b[..|b| - 1];
      assert s[..|s| - 1] == a + [sep] + b';
      SplitAtLastOfJoin(a, sep, b');
      assert b' + [b[|b| - 1]] == b;
    } else {
      assert s[..|s| - 1] == a;
    }
  }

  /**
   * The exchange can read the timestamp back: splitting at the last `&`
   * gives the encoded query and the `timestamp=` pair, whose decimal text
   * parses to the timestamp that was used.
   */
  lemma TimestampReadBack(encoded: string, ts: Int64)
    requires encoded != ""
    ensures SplitAtLast(TimestampedQuery(encoded, ts), '&') == Some((encoded, "timestamp=" + Decimal(ts)))
    ensures ParseDecimal(Decimal(ts)) == Some(ts)
  {
    var tail := "timestamp=" + Decimal(ts);
    assert '&' !in tail by {
      assert forall i :: 0 <= i < |tail| ==> tail[i] != '&' by {
        forall i | 0 <= i < |tail|
          ensures tail[i] != '&'
        {
          if i >= 10 {
            assert tail[i] == Decimal(ts)[i - 10];
          }
        }
      }
    }
    assert TimestampedQuery(encoded, ts) == encoded + ['&'] + tail;
    SplitAtLastOfJoin(encoded, '&', tail);
    DecimalRoundTrip(ts);
  }

  /**
   * The exchange's check of a signed query string: drop the last `&` pair,
   * take the HMAC of what is left followed by the body, and compare its
   * encoding with the dropped pair.
   */
  predicate ExchangeAccepts(secret: string, qs: string, form: string, env: Env)
  {
    match SplitAtLast(qs, '&')
    case None => false
    case Some((signed, sigPart)) =>
      var h := env.hmac(secret, signed + form);
      h.Some? && SignatureParam(env, h.value) == sigPart
  }

  /**
   * Whenever the encoded signature pair holds no raw `&` (URL encoding
   * escapes it), the exchange recomputes exactly the signature sent.
   */
  lemma SignedQueryVerifies(c: Client, q: Values, form: string, env: Env)
    requires forall sig :: '&' !in SignatureParam(env, sig)
    requires SignedQuery(c, q, form, env).Success?
    ensures ExchangeAccepts(c.secretKey, SignedQuery(c, q, form, env).value, form, env)
  {
    var withTs := TimestampedQuery(env.encode(q), Timestamp(c, env));
    var sig := env.hmac(c.secretKey, withTs + form).value;
    TimestampedQueryNonEmpty(env.encode(q), Timestamp(c, env));
    SplitAtLastOfJoin(withTs, '&', SignatureParam(env, sig));
    assert withTs + "&" + SignatureParam(env, sig) == withTs + ['&'] + SignatureParam(env, sig);
  }

  /**
   * The URL of a signed request ends in a query string the exchange accepts:
   * the signature was computed over exactly the bytes sent before it.
   */
  lemma SignedRequestVerifies(c: Client, r0: Request, opts: seq<RequestOption>, env: Env)
    requires forall sig :: '&' !in SignatureParam(env, sig)
    requires ApplyOptions(r0, opts).secType == SecSigned
    requires ParseRequest(c, r0, opts, env).Success?
    ensures var r := ApplyOptions(r0, opts);
            exists qs :: ParseRequest(c, r0, opts, env).value.fullURL == c.baseURL + r.endpoint + "?" + qs
                         && ExchangeAccepts(c.secretKey, qs, env.encode(r.form), env)
  {
    var r := ApplyOptions(r0, opts);
    var q := QueryWithRecvWindow(r);
    var form := env.encode(r.form);
    var qs := SignedQuery(c, q, form, env).value;
    SignedQueryVerifies(c, q, form, env);
    TimestampedQueryNonEmpty(env.encode(q), Timestamp(c, env));
    assert ParseRequest(c, r0, opts, env).value.fullURL == c.baseURL + r.endpoint + "?" + qs;
  }

  /** The outcome of `callAPI`: the request handed to the HTTP layer, if any, and the result. */
  datatype Call = Call(sent: Option<Outgoing>, result: Result<string, Error>)

  /**
   * The status branch of `callAPI`. A status of 400 or more is always an
   * API error, carrying the raw response exactly when the decoded envelope
   * is not valid; any other status returns the body unchanged, unless
   * closing the body failed.
   */
  function DecodeResponse(resp: HttpResponse, env: Env): (res: Result<string, Error>)
    ensures res.Success? <==> resp.status < 400 && resp.closeError.None?
    ensures res.Success? ==> res.value == resp.data
    ensures resp.status < 400 && resp.closeError.Some? ==>
              res == Failure(TransportError(resp.closeError.value))
    ensures resp.status >= 400 ==>
              && res.Failure? && res.error.APIError?
              && res.error.code == env.unmarshalAPIError(resp.data).code
              && res.error.message == env.unmarshalAPIError(resp.data).message
              && (res.error.response == Some(resp.data) <==> !env.isValidAPIError(env.unmarshalAPIError(resp.data)))
              && (res.error.response.None? <==> env.isValidAPIError(env.unmarshalAPIError(resp.data)))
  {
    if resp.status >= 400 then
      var fields := env.unmarshalAPIError(resp.data);
      Failure(APIError(fields.code, fields.message,
                       if env.isValidAPIError(fields) then None else Some(resp.data)))
    else if resp.closeError.Some? then
      Failure(TransportError(resp.closeError.value))
    else
      Success(resp.data)
  }

  /**
   * `callAPI`. Nothing is sent when `parseRequest` fails, and its error is
   * returned; otherwise the parsed request is sent as it is, and the result
   * is the HTTP error or the decoded response.
   */
  function CallAPI(c: Client, r: Request, opts: seq<RequestOption>, env: Env): (call: Call)
    ensures ParseRequest(c, r, opts, env).Failure? ==>
              call.sent.None? && call.result == Failure(ParseRequest(c, r, opts, env).error)
    ensures ParseRequest(c, r, opts, env).Success? ==>
              var p := ParseRequest(c, r, opts, env).value;
              call.sent == Some(Outgoing(r.httpMethod, p.fullURL, p.header, p.body))
    ensures call.sent.Some? && env.roundTrip(call.sent.value).Failure? ==>
              call.result == Failure(TransportError(env.roundTrip(call.sent.value).error))
    ensures call.sent.Some? && env.roundTrip(call.sent.value).Success? ==>
              call.result == DecodeResponse(env.roundTrip(call.sent.value).value, env)
  {
    match ParseRequest(c, r, opts, env)
    case Failure(e) => Call(None, Failure(e))
    case Success(p) =>
      var out := Outgoing(ApplyOptions(r, opts).httpMethod, p.fullURL, p.header, p.body);
      match env.roundTrip(out)
      case Failure(reason) => Call(Some(out), Failure(TransportError(reason)))
      case Success(resp) => Call(Some(out), DecodeResponse(resp, env))
  }

  /** A failed signature never reaches the network, whatever the HTTP layer would do. */
  lemma SigningFailureSendsNothing(c: Client, r: Request, opts: seq<RequestOption>, env: Env,
                                   other: Outgoing -> Result<HttpResponse, string>)
    requires ParseRequest(c, r, opts, env).Failure?
    ensures CallAPI(c, r, opts, env).sent.None?
    ensures CallAPI(c, r, opts, env).result == Failure(SigningError)
    ensures CallAPI(c, r, opts, env.(roundTrip := other)).result == Failure(SigningError)
  {
  }
}
