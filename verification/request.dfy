/**
 * The pending API request of the alpha client and its builder calls
 * (`addParam`, `setParam`, `setFormParam`) and request options
 * (`WithRecvWindow`), as pure functions over an immutable record.
 */
module Requests {
  import opened Wrappers
  import opened Numbers
  import opened UrlValues

  /** Security level of an endpoint: what the transport must attach. */
  datatype SecType = SecNone | SecAPIKey | SecSigned

  /** A parameter value before `fmt.Sprintf("%v", value)` renders it. */
  datatype Scalar = Str(s: string) | Int(i: Int64) | Bool(b: bool)

  /** `fmt.Sprintf("%v", value)` for the value kinds the builders pass. */
  function Render(x: Scalar): string
  {
    match x
    case Str(s) => s
    case Int(i) => Decimal(i)
    case Bool(b) => if b then "true" else "false"
  }

  /**
   * The request record before `parseRequest` runs: method, endpoint, query
   * and form values, the option-controlled receive window, the security
   * level, and an optional raw body that replaces the encoded form.
   */
  datatype Request = Request(
    httpMethod: string,
    endpoint: string,
    query: Values,
    form: Values,
    recvWindow: Int64,
    secType: SecType,
    rawBody: Option<string>)

  /** A request as the service wrappers create it: everything else at Go's zero value. */
  function NewRequest(httpMethod: string, endpoint: string, secType: SecType): (r: Request)
    ensures r.query == map[] && r.form == map[]
    ensures r.recvWindow == 0 && r.rawBody == None
    ensures r.httpMethod == httpMethod && r.endpoint == endpoint && r.secType == secType
  {
    Request(httpMethod, endpoint, map[], map[], 0, secType, None)
  }

  /** `addParam`: appends a rendered value to the query; nothing else changes. */
  function AddParam(r: Request, key: string, value: Scalar): (r': Request)
    ensures r'.query.Keys == r.query.Keys + {key}
    ensures Lookup(r'.query, key) == Lookup(r.query, key) + [Render(value)]
    ensures forall k :: k != key ==> Lookup(r'.query, k) == Lookup(r.query, k)
    ensures r' == r.(query := r'.query)
  {
    r.(query := Add(r.query, key, Render(value)))
  }

  /** `setParam`: the rendered value becomes the only query value under `key`. */
  function SetParam(r: Request, key: string, value: Scalar): (r': Request)
    ensures r'.query.Keys == r.query.Keys + {key}
    ensures Lookup(r'.query, key) == [Render(value)]
    ensures forall k :: k != key ==> Lookup(r'.query, k) == Lookup(r.query, k)
    ensures r' == r.(query := r'.query)
  {
    r.(query := Set(r.query, key, Render(value)))
  }

  /** `setFormParam`: the rendered value becomes the only form value under `key`. */
  function SetFormParam(r: Request, key: string, value: Scalar): (r': Request)
    ensures r'.form.Keys == r.form.Keys + {key}
    ensures Lookup(r'.form, key) == [Render(value)]
    ensures forall k :: k != key ==> Lookup(r'.form, k) == Lookup(r.form, k)
    ensures r' == r.(form := r'.form)
  {
    r.(form := Set(r.form, key, Render(value)))
  }

  /** Setting a query parameter twice keeps only the second value. */
  lemma SetParamLastWins(r: Request, key: string, first: Scalar, second: Scalar)
    ensures SetParam(SetParam(r, key, first), key, second) == SetParam(r, key, second)
  {
    SetLastWins(r.query, key, Render(first), Render(second));
  }

  /** Setting a form parameter twice keeps only the second value. */
  lemma SetFormParamLastWins(r: Request, key: string, first: Scalar, second: Scalar)
    ensures SetFormParam(SetFormParam(r, key, first), key, second) == SetFormParam(r, key, second)
  {
    SetLastWins(r.form, key, Render(first), Render(second));
  }

  /** Query and form writes touch disjoint maps, so their order does not matter. */
  lemma QueryAndFormIndependent(r: Request, qk: string, qv: Scalar, fk: string, fv: Scalar)
    ensures SetFormParam(SetParam(r, qk, qv), fk, fv) == SetParam(SetFormParam(r, fk, fv), qk, qv)
    ensures SetFormParam(AddParam(r, qk, qv), fk, fv) == AddParam(SetFormParam(r, fk, fv), qk, qv)
  {
  }

  /** The request options a caller may pass; the package defines only `WithRecvWindow`. */
  datatype RequestOption = WithRecvWindow(window: Int64)

  /** Runs one option on the request. */
  function Apply(r: Request, opt: RequestOption): (r': Request)
  {
    match opt
    case WithRecvWindow(w) => r.(recvWindow := w)
  }

  /**
   * Runs the options in list order. The receive window ends up as the one
   * given by the LAST option, or stays as it was when there are none; no
   * other field is touched.
   */
  function ApplyOptions(r: Request, opts: seq<RequestOption>): (r': Request)
    ensures r'.recvWindow == (if |opts| == 0 then r.recvWindow else opts[|opts| - 1].window)
    ensures r' == r.(recvWindow := r'.recvWindow)
    decreases |opts|
  {
    if |opts| == 0 then r else ApplyOptions(Apply(r, opts[0]), opts[1..])
  }

  /** Applying two option lists one after the other is applying their concatenation. */
  lemma {:induction false} ApplyOptionsConcat(r: Request, a: seq<RequestOption>, b: seq<RequestOption>)
    ensures ApplyOptions(r, a + b) == ApplyOptions(ApplyOptions(r, a), b)
    decreases |a|
  {
    if |a| > 0 {
      assert (a + b)[1..] == a[1..] + b;
      ApplyOptionsConcat(Apply(r, a[0]), a[1..], b);
    }
  }
}
