/**
 * `GetKlinesService.Do` of the alpha market service: the query it assembles
 * for the kline endpoint, and the positional decoder that turns the
 * response's array of arrays into kline records.
 */
module Klines {
  import opened Wrappers
  import opened Numbers
  import opened UrlValues
  import opened Requests
  import opened Transport

  const KlinesEndpoint: string := "/sapi/v1/alpha-trade/market/klines"

  /** The number of positions a row must have to be decoded. */
  const RowWidth: nat := 12

  /** A decoded JSON value, as `json.Unmarshal` produces it for `interface{}`. */
  datatype Json =
    | JNull
    | JBool(b: bool)
    | JNum(n: int)
    | JStr(s: string)
    | JArr(items: seq<Json>)
    | JObj(members: seq<(string, Json)>)

  /** One candlestick, field for field as the source's `Kline` record. */
  datatype Kline = Kline(
    openTime: int,
    open: string,
    high: string,
    low: string,
    close: string,
    volume: string,
    closeTime: int,
    quoteAssetVolume: string,
    numberOfTrades: int,
    takerBuyBaseAssetVolume: string,
    takerBuyQuoteAssetVolume: string,
    ignore: string)

  /** The builder state of the service; `None` means the setter was never called. */
  datatype KlinesService = KlinesService(
    symbol: string,
    interval: string,
    startTime: Option<Int64>,
    endTime: Option<Int64>,
    limit: Option<Int64>,
    recvWindow: Option<Int64>)

  /** The query values an optional integer parameter contributes. */
  function OptionalValue(x: Option<Int64>): seq<string>
  {
    if x.Some? then [Decimal(x.value)] else []
  }

  /** The key an optional parameter contributes, if it was set. */
  function OptionalKey(key: string, x: Option<Int64>): set<string>
  {
    if x.Some? then {key} else {}
  }

  /** The query after an optional parameter: set when its setter was called, untouched otherwise. */
  function SetOptional(q: Values, key: string, x: Option<Int64>): (r: Values)
    ensures r.Keys == q.Keys + OptionalKey(key, x)
    ensures Lookup(r, key) == (if x.Some? then OptionalValue(x) else Lookup(q, key))
    ensures forall k :: k != key ==> Lookup(r, k) == Lookup(q, k)
  {
    if x.Some? then Set(q, key, Render(Int(x.value))) else q
  }

  /** Every parameter name the kline query may hold. */
  const KlinesParams: set<string> := {"symbol", "interval", "startTime", "endTime", "limit", "recvWindow"}

  /** The parameter names of the kline endpoint are pairwise distinct. */
  lemma ParamNamesDistinct()
    ensures |KlinesParams| == 6
    ensures "symbol" != "interval" && "symbol" != "startTime" && "symbol" != "endTime"
    ensures "symbol" != "limit" && "symbol" != "recvWindow"
    ensures "interval" != "startTime" && "interval" != "endTime" && "interval" != "limit"
    ensures "interval" != "recvWindow"
    ensures "startTime" != "endTime" && "startTime" != "limit" && "startTime" != "recvWindow"
    ensures "endTime" != "limit" && "endTime" != "recvWindow" && "limit" != "recvWindow"
  {
  }

  /**
   * The request `Do` builds before calling the transport: a signed GET on
   * the kline endpoint whose query always holds `symbol` and `interval` and
   * holds each optional parameter exactly when its setter was called.
   */
  function KlinesRequest(s: KlinesService): (r: Request)
    ensures r.httpMethod == "GET" && r.endpoint == KlinesEndpoint && r.secType == SecSigned
    ensures r.form == map[] && r.recvWindow == 0 && r.rawBody.None?
    ensures forall k :: k in r.query ==> k in KlinesParams
    ensures "symbol" in r.query && "interval" in r.query
    ensures ("startTime" in r.query <==> s.startTime.Some?) && ("endTime" in r.query <==> s.endTime.Some?)
    ensures ("limit" in r.query <==> s.limit.Some?) && ("recvWindow" in r.query <==> s.recvWindow.Some?)
    ensures Lookup(r.query, "symbol") == [s.symbol]
    ensures Lookup(r.query, "interval") == [s.interval]
    ensures Lookup(r.query, "startTime") == OptionalValue(s.startTime)
    ensures Lookup(r.query, "endTime") == OptionalValue(s.endTime)
    ensures Lookup(r.query, "limit") == OptionalValue(s.limit)
    ensures Lookup(r.query, "recvWindow") == OptionalValue(s.recvWindow)
  {
    ParamNamesDistinct();
    var r := NewRequest("GET", KlinesEndpoint, SecSigned);
    var r := SetParam(r, "symbol", Str(s.symbol));
    var r := SetParam(r, "interval", Str(s.interval));
    var q := SetOptional(r.query, "startTime", s.startTime);
    var q := SetOptional(q, "endTime", s.endTime);
    var q := SetOptional(q, "limit", s.limit);
    var q := SetOptional(q, "recvWindow", s.recvWindow);
    r.(query := q)
  }

  /** How the exchange reads an optional integer parameter: absent, or one well-formed `int64`. */
  function ReadOptional(q: Values, key: string): Option<Option<Int64>>
  {
    if key !in q then Some(None)
    else
      match ParseDecimal(Get(q, key))
      case Some(n) => if -TwoTo63 <= n < TwoTo63 then Some(Some(n)) else None
      case None => None
  }

  /** How the exchange reads the kline query back into the builder's parameters. */
  function ReadKlinesQuery(q: Values): Option<KlinesService>
  {
    if "symbol" !in q || "interval" !in q then None
    else
      var startTime :- ReadOptional(q, "startTime");
      var endTime :- ReadOptional(q, "endTime");
      var limit :- ReadOptional(q, "limit");
      var recvWindow :- ReadOptional(q, "recvWindow");
      Some(KlinesService(Get(q, "symbol"), Get(q, "interval"), startTime, endTime, limit, recvWindow))
  }

  lemma ReadOptionalOfAssembled(q: Values, key: string, x: Option<Int64>)
    requires key in q <==> x.Some?
    requires Lookup(q, key) == OptionalValue(x)
    ensures ReadOptional(q, key) == Some(x)
  {
    if x.Some? {
      DecimalRoundTrip(x.value);
    }
  }

  /** The kline query loses nothing: reading it back yields the builder's parameters. */
  lemma KlinesQueryRoundTrip(s: KlinesService)
    ensures ReadKlinesQuery(KlinesRequest(s).query) == Some(s)
  {
    var q := KlinesRequest(s).query;
    ReadOptionalOfAssembled(q, "startTime", s.startTime);
    ReadOptionalOfAssembled(q, "endTime", s.endTime);
    ReadOptionalOfAssembled(q, "limit", s.limit);
    ReadOptionalOfAssembled(q, "recvWindow", s.recvWindow);
    assert Get(q, "symbol") == s.symbol && Get(q, "interval") == s.interval;
  }

  /**
   * The builder's receive window goes into the query as it is, zero
   * included; a positive `WithRecvWindow` option replaces it, and a zero or
   * negative one leaves it alone.
   */
  lemma RecvWindowPrecedence(c: Client, s: KlinesService, opts: seq<RequestOption>, env: Env)
    ensures ParseRequest(c, KlinesRequest(s), opts, env).Success? ==>
            var q := ParseRequest(c, KlinesRequest(s), opts, env).value.query;
            && (|opts| > 0 && opts[|opts| - 1].window > 0 ==>
                  Lookup(q, "recvWindow") == [Decimal(opts[|opts| - 1].window)])
            && (|opts| == 0 || opts[|opts| - 1].window <= 0 ==>
                  Lookup(q, "recvWindow") == OptionalValue(s.recvWindow))
  {
  }

  /** One element of the outer array decoded into `[]interface{}`: null is the empty row. */
  function RowOf(j: Json): Option<seq<Json>>
  {
    match j
    case JNull => Some([])
    case JArr(items) => Some(items)
    case _ => None
  }

  /** Decodes every element of the outer array into a row; an element that is neither null nor an array is an error. */
  function AllRows(items: seq<Json>): (r: Option<seq<seq<Json>>>)
    ensures r.Some? <==> forall i :: 0 <= i < |items| ==> RowOf(items[i]).Some?
    ensures r.Some? ==> |r.value| == |items|
    ensures r.Some? ==> forall i :: 0 <= i < |items| ==> r.value[i] == RowOf(items[i]).value
    decreases |items|
  {
    if |items| == 0 then Some([])
    else
      match RowOf(items[0])
      case None => None
      case Some(row) =>
        match AllRows(items[1..])
        case None => None
        case Some(rest) => Some([row] + rest)
  }

  /** `json.Unmarshal` into `[][]interface{}`: null is no rows, an array of arrays its rows. */
  function RowsOf(j: Json): Option<seq<seq<Json>>>
  {
    match j
    case JNull => Some([])
    case JArr(items) => AllRows(items)
    case _ => None
  }

  /** The JSON text of a list of rows. */
  function RowsToJson(rows: seq<seq<Json>>): Json
  {
    JArr(seq(|rows|, i requires 0 <= i < |rows| => JArr(rows[i])))
  }

  /** Reading the JSON of a list of rows gives those rows back. */
  lemma RowsRoundTrip(rows: seq<seq<Json>>)
    ensures RowsOf(RowsToJson(rows)) == Some(rows)
  {
    var items := RowsToJson(rows).items;
    assert forall i :: 0 <= i < |items| ==> RowOf(items[i]) == Some(rows[i]);
    assert AllRows(items).value == rows;
  }

  /** A top-level value that is neither null nor an array yields no rows. */
  lemma NonArrayHasNoRows(j: Json)
    requires !j.JNull? && !j.JArr?
    ensures RowsOf(j).None?
  {
  }

  /** The positions holding strings and numbers in a kline row. */
  const StringPositions: set<int> := {1, 2, 3, 4, 5, 7, 9, 10, 11}
  const NumberPositions: set<int> := {0, 6, 8}

  /** The string field stored at row position `i`. */
  function StringField(k: Kline, i: int): string
    requires i in StringPositions
  {
    if i == 1 then k.open
    else if i == 2 then k.high
    else if i == 3 then k.low
    else if i == 4 then k.close
    else if i == 5 then k.volume
    else if i == 7 then k.quoteAssetVolume
    else if i == 9 then k.takerBuyBaseAssetVolume
    else if i == 10 then k.takerBuyQuoteAssetVolume
    else k.ignore
  }

  /** The numeric field stored at row position `i`. */
  function NumberField(k: Kline, i: int): int
    requires i in NumberPositions
  {
    if i == 0 then k.openTime else if i == 6 then k.closeTime else k.numberOfTrades
  }

  /** The element at `i` when it is a string, else the empty string. */
  function StrAt(row: seq<Json>, i: nat): string
    requires i < |row|
  {
    if row[i].JStr? then row[i].s else ""
  }

  /** The element at `i` when it is a number, else zero. */
  function NumAt(row: seq<Json>, i: nat): int
    requires i < |row|
  {
    if row[i].JNum? then row[i].n else 0
  }

  /**
   * Decodes one row of at least twelve elements by position. Each field is
   * the element at its position when that element has the field's type,
   * and the zero value otherwise.
   */
  function DecodeRow(row: seq<Json>): (k: Kline)
    requires |row| >= RowWidth
    ensures forall i :: i in StringPositions ==>
              StringField(k, i) == (if row[i].JStr? then row[i].s else "")
    ensures forall i :: i in NumberPositions ==>
              NumberField(k, i) == (if row[i].JNum? then row[i].n else 0)
  {
    Kline(NumAt(row, 0), StrAt(row, 1), StrAt(row, 2), StrAt(row, 3), StrAt(row, 4), StrAt(row, 5),
          NumAt(row, 6), StrAt(row, 7), NumAt(row, 8), StrAt(row, 9), StrAt(row, 10), StrAt(row, 11))
  }

  /** The twelve-element row a kline is sent as. */
  function KlineToRow(k: Kline): (row: seq<Json>)
    ensures |row| == RowWidth
  {
    [JNum(k.openTime), JStr(k.open), JStr(k.high), JStr(k.low), JStr(k.close), JStr(k.volume),
     JNum(k.closeTime), JStr(k.quoteAssetVolume), JNum(k.numberOfTrades),
     JStr(k.takerBuyBaseAssetVolume), JStr(k.takerBuyQuoteAssetVolume), JStr(k.ignore)]
  }

  /** Every position holds the type its field expects. */
  predicate WellTypedRow(row: seq<Json>)
    requires |row| >= RowWidth
  {
    && (forall i :: i in StringPositions ==> row[i].JStr?)
    && (forall i :: i in NumberPositions ==> row[i].JNum?)
  }

  /** Decoding the row of a kline gives the kline back. */
  lemma KlineRowRoundTrip(k: Kline)
    ensures DecodeRow(KlineToRow(k)) == k
  {
  }

  /** A well-typed row is the row of its decoded kline, up to its twelfth element. */
  lemma RowKlineRoundTrip(row: seq<Json>)
    requires |row| >= RowWidth && WellTypedRow(row)
    ensures KlineToRow(DecodeRow(row)) == row[..RowWidth]
  {
    assert 0 in NumberPositions && 6 in NumberPositions && 8 in NumberPositions;
    assert 1 in StringPositions && 2 in StringPositions && 3 in StringPositions;
    assert 4 in StringPositions && 5 in StringPositions && 7 in StringPositions;
    assert 9 in StringPositions && 10 in StringPositions && 11 in StringPositions;
  }

  /** Elements past the twelfth never affect the decoded kline. */
  lemma DecodeRowIgnoresTail(row: seq<Json>, extra: seq<Json>)
    requires |row| >= RowWidth
    ensures DecodeRow(row + extra) == DecodeRow(row)
    ensures DecodeRow(row) == DecodeRow(row[..RowWidth])
  {
  }

  /** The rows the decoder keeps: those with at least twelve elements, in order. */
  function LongRows(rows: seq<seq<Json>>): (r: seq<seq<Json>>)
    ensures forall i :: 0 <= i < |r| ==> |r[i]| >= RowWidth
    decreases |rows|
  {
    if |rows| == 0 then []
    else (if |rows[0]| >= RowWidth then [rows[0]] else []) + LongRows(rows[1..])
  }

  /** Filtering distributes over concatenation, so it keeps the input order. */
  lemma {:induction false} LongRowsAppend(a: seq<seq<Json>>, b: seq<seq<Json>>)
    ensures LongRows(a + b) == LongRows(a) + LongRows(b)
    decreases |a|
  {
    if |a| > 0 {
      assert (a + b)[0] == a[0];
      assert (a + b)[1..] == a[1..] + b;
      LongRowsAppend(a[1..], b);
      assert LongRows(a + b)
          == (if |a[0]| >= RowWidth then [a[0]] else []) + LongRows(a[1..] + b);
    } else {
      assert a + b == b;
    }
  }

  /** The kept rows are exactly the input rows of length at least twelve, and never more. */
  lemma {:induction false} LongRowsMembers(rows: seq<seq<Json>>)
    ensures |LongRows(rows)| <= |rows|
    ensures forall row :: row in LongRows(rows) <==> row in rows && |row| >= RowWidth
    decreases |rows|
  {
    if |rows| > 0 {
      LongRowsMembers(rows[1..]);
      assert rows == [rows[0]] + rows[1..];
      forall row | row in rows && |row| >= RowWidth
        ensures row in LongRows(rows)
      {
        if row != rows[0] {
          assert row in rows[1..];
        }
      }
    }
  }

  /** A row shorter than twelve elements is skipped, not an error. */
  lemma ShortRowSkipped(rows: seq<seq<Json>>, short: seq<Json>)
    requires |short| < RowWidth
    ensures LongRows(rows + [short]) == LongRows(rows)
    ensures LongRows([short] + rows) == LongRows(rows)
  {
    LongRowsAppend(rows, [short]);
    LongRowsAppend([short], rows);
    assert LongRows([short]) == [];
  }

  /**
   * The decoding loop of `Do`: the i-th kline comes from the i-th row of at
   * least twelve elements, and there is one kline per such row.
   */
  method DecodeKlines(rows: seq<seq<Json>>) returns (klines: seq<Kline>)
    ensures |klines| == |LongRows(rows)| <= |rows|
    ensures forall i :: 0 <= i < |klines| ==> klines[i] == DecodeRow(LongRows(rows)[i])
  {
    klines := [];
    var i := 0;
    while i < |rows|
      invariant 0 <= i <= |rows|
      invariant |klines| == |LongRows(rows[..i])|
      invariant forall j :: 0 <= j < |klines| ==> klines[j] == DecodeRow(LongRows(rows[..i])[j])
    {
      LongRowsAppend(rows[..i], [rows[i]]);
      assert rows[..i + 1] == rows[..i] + [rows[i]];
      if |rows[i]| >= RowWidth {
        klines := klines + [DecodeRow(rows[i])];
      }
      i := i + 1;
    }
    assert rows[..|rows|] == rows;
    LongRowsMembers(rows);
  }

  /**
   * What `Do` makes of the response body: a decode error when the body is
   * not JSON, or neither null nor an array whose elements are all arrays or
   * null; otherwise one kline per row of at least twelve elements, in
   * order. A null body or a null row adds no klines and is no error.
   */
  predicate DecodedFrom(res: Result<seq<Kline>, Error>, data: string, parseJson: string -> Option<Json>)
  {
    match parseJson(data)
    case None => res == Failure(DecodeError)
    case Some(j) =>
      match RowsOf(j)
      case None => res == Failure(DecodeError)
      case Some(rows) =>
        && res.Success?
        && |res.value| == |LongRows(rows)|
        && forall i :: 0 <= i < |res.value| ==> res.value[i] == DecodeRow(LongRows(rows)[i])
  }

  /** The decoding half of `Do`, from the body bytes to the klines or the decode error. */
  method DecodeBody(data: string, parseJson: string -> Option<Json>) returns (res: Result<seq<Kline>, Error>)
    ensures DecodedFrom(res, data, parseJson)
  {
    var json := parseJson(data);
    if json.None? {
      return Failure(DecodeError);
    }
    var rows := RowsOf(json.value);
    if rows.None? {
      return Failure(DecodeError);
    }
    var klines := DecodeKlines(rows.value);
    return Success(klines);
  }

  /**
   * `GetKlinesService.Do`. Errors of the call are passed on unchanged;
   * otherwise the result is what the response body decodes to.
   */
  method GetKlines(c: Client, s: KlinesService, opts: seq<RequestOption>, env: Env,
                   parseJson: string -> Option<Json>)
    returns (res: Result<seq<Kline>, Error>)
    ensures var call := CallAPI(c, KlinesRequest(s), opts, env);
            && (call.result.Failure? ==> res == Failure(call.result.error))
            && (call.result.Success? ==> DecodedFrom(res, call.result.value, parseJson))
  {
    var call := CallAPI(c, KlinesRequest(s), opts, env);
    if call.result.Failure? {
      return Failure(call.result.error);
    }
    res := DecodeBody(call.result.value, parseJson);
  }
}
