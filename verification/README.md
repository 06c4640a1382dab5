# Alpha client request pipeline of go-binance, modelled in Dafny

This project models the core of the `alpha` package of the go-binance client
library: how a pending API request is built (`addParam`, `setParam`,
`setFormParam`, request options), how `parseRequest` turns it into the final
URL, headers and body (receive window, `X-MBX-APIKEY` header, `timestamp`
and HMAC `signature`), how `callAPI` sorts the HTTP response into data or an
API error, and how `GetKlinesService.Do` assembles its query and decodes the
kline response, an array of arrays read by position.

Files, one module each:

- `wrappers.dfy` (`Wrappers`): `Option` and `Result`.
- `numbers.dfy` (`Numbers`): Go's `int64`, its wrap-around subtraction, and
  the decimal text `fmt` renders for integers, with its inverse parse.
- `url_values.dfy` (`UrlValues`): `url.Values` as a map from key to value list,
  with `Add` and `Set`.
- `request.dfy` (`Requests`): the request record, its setters and the
  `WithRecvWindow` option.
- `transport.dfy` (`Transport`): the client configuration, `parseRequest`,
  the status branch of `callAPI`, and the exchange's check of a signature.
- `klines.dfy` (`Klines`): the kline query, the JSON rows and the positional
  decoder.

Everything the model cannot see is a parameter. `Transport.Env` carries the
URL encoder `url.Values.Encode`, the HMAC `common.Hmac` (which may fail), the
clock reading `time.Now().UnixMilli()`, the HTTP round trip (building,
sending and reading the request), and the decoding and validity test of the
`common.APIError` envelope. `Klines.GetKlines` takes the JSON text parser as
a parameter; the structure check that follows it (`[][]interface{}`) is
modelled. Strings stand for byte sequences.

Behaviour of the code worth knowing, which the model follows:

- The query is encoded by `url.Values.Encode`, which sorts by key; the model
  makes no assumption about the encoder beyond what a lemma requires.
- The signed payload is the timestamped query followed by the encoded FORM,
  even when a raw body replaces the form on the wire (`Transport.RawBodyNotSigned`).
- A status of 400 or more always yields an `APIError`; when the decoded
  envelope is not valid the error carries the raw response instead of being a
  separate kind of error.
- Only the `WithRecvWindow` option path ignores a zero or negative window; a
  builder's `RecvWindow(0)` is still sent as `recvWindow=0`
  (`Klines.RecvWindowPrecedence`).
- The `queryString == ""` test after the timestamp is appended can never
  succeed (`Transport.TimestampedQueryNonEmpty`); the model keeps the branch.

## Model

| member | source | states |
|---|---|---|
| `Numbers.Sub64` | v2/alpha/client.go:213 | the timestamp `now - TimeOffset` is the exact difference when it fits in `int64`, and wraps by 2^64 otherwise |
| `Numbers.Decimal` | v2/alpha/client.go:217 | `%d` text is canonical: non-empty, `-` first exactly for negative numbers, otherwise all digits, and no leading zero |
| `Numbers.DecimalRoundTrip` | v2/alpha/client.go:203 | an integer rendered with `%v`/`%d` parses back to the same integer |
| `Numbers.DecimalInjective` | v2/alpha/client.go:217 | distinct timestamps render to distinct text |
| `UrlValues.Add` | v2/alpha/client.go:86 | `Add` appends the value after the earlier values of the key and leaves every other key alone |
| `UrlValues.Set` | v2/alpha/client.go:95 | `Set` leaves exactly the one value under the key and leaves every other key alone |
| `UrlValues.SetLastWins` | v2/alpha/client.go:91-97 | of two `Set`s on one key only the second remains |
| `UrlValues.AddKeepsBoth` | v2/alpha/client.go:82-88 | two `Add`s on one key keep both values, in call order, after the old ones |
| `UrlValues.SetAfterAdd` | v2/alpha/client.go:91-97 | a `Set` erases every value an earlier `Add` put under the key |
| `UrlValues.SetCommutes` | v2/alpha/client.go:91-97 | `Set`s on different keys can be done in either order |
| `Requests.NewRequest` | v2/alpha/market_service.go:198-202 | a new request has empty query and form, no raw body and a zero receive window |
| `Requests.AddParam` | v2/alpha/client.go:82-88 | `addParam` appends the rendered value to the query key and changes nothing else in the request |
| `Requests.SetParam` | v2/alpha/client.go:91-97 | `setParam` makes the rendered value the only query value of the key; form and all other fields unchanged |
| `Requests.SetFormParam` | v2/alpha/client.go:108-114 | `setFormParam` makes the rendered value the only form value of the key; query and all other fields unchanged |
| `Requests.SetParamLastWins` | v2/alpha/client.go:91-97 | setting a query parameter twice is the same as setting it once to the second value |
| `Requests.SetFormParamLastWins` | v2/alpha/client.go:108-114 | setting a form parameter twice is the same as setting it once to the second value |
| `Requests.QueryAndFormIndependent` | v2/alpha/client.go:82-114 | query writes and form writes commute: neither touches the other map |
| `Requests.ApplyOptions` | v2/alpha/client.go:179-181 | options run in list order: the last `WithRecvWindow` decides the window, none leaves it, and nothing else changes |
| `Requests.ApplyOptionsConcat` | v2/alpha/client.go:138-142 | applying two option lists in turn equals applying their concatenation |
| `Transport.NewClient` | v2/alpha/client.go:159-169 | a new client targets the production base URL with no time offset |
| `Transport.QueryWithRecvWindow` | v2/alpha/client.go:202-205 | a positive window becomes the only `recvWindow` value; a zero or negative one leaves the query exactly as it was |
| `Transport.HeaderOf` | v2/alpha/client.go:192-209 | `X-MBX-APIKEY` is present (with the API key) exactly for API-key and signed levels; the form content type exactly for a non-empty form without raw body |
| `Transport.TimestampReadBack` | v2/alpha/client.go:213-217 | the exchange, splitting the timestamped query at its last `&`, gets back the encoded query and a `timestamp=` pair whose decimal text parses to the timestamp used |
| `Transport.FullURLQueryReadBack` | v2/alpha/client.go:232-234 | the URL starts with base plus endpoint, a `?` follows exactly when the query string is non-empty, and the text after it reads back as the query string |
| `Transport.ParseRequest` | v2/alpha/client.go:177-240 | fails exactly when signed and the HMAC fails; on success the headers are exactly the API key for keyed levels and the form content type for a non-empty form without raw body, the body is the raw body or the encoded form, and the query gains only `recvWindow`, and only for a positive window |
| `Transport.OptionsApplyFirst` | v2/alpha/client.go:179-181 | parsing with options equals parsing the request the options produced |
| `Transport.LastRecvWindowWins` | v2/alpha/client.go:138-142 | option lists ending in the same option give the same parsed request |
| `Transport.SignedURLShape` | v2/alpha/client.go:211-234 | a signed URL has `?`, then the encoded query, the timestamp, and last the signature over the timestamped query and the form |
| `Transport.UnsignedURLShape` | v2/alpha/client.go:202-234 | an unsigned request always parses, and its query string is the plain encoding: no timestamp, no signature |
| `Transport.TimestampedQueryNonEmpty` | v2/alpha/client.go:225-229 | the query string is never empty once the timestamp is appended, so the first branch is dead |
| `Transport.RawBodyNotSigned` | v2/alpha/client.go:191-218 | the raw body has no influence on whether signing succeeds nor on the URL |
| `Transport.SignedQueryVerifies` | v2/alpha/client.go:211-230 | the exchange, dropping the last `&` pair and recomputing the HMAC over the rest and the form, gets exactly the signature sent |
| `Transport.SignedRequestVerifies` | v2/alpha/client.go:211-234 | the URL of a signed request ends in `?` and a query string the exchange accepts: the HMAC over everything before the last pair and the form is the signature sent |
| `Transport.DecodeResponse` | v2/alpha/client.go:262-287 | status >= 400 is an API error with the decoded code and message, carrying the raw response exactly when the envelope is invalid; below 400 a failed close is a transport error with its reason, otherwise the body unchanged |
| `Transport.CallAPI` | v2/alpha/client.go:242-288 | when parsing fails nothing is sent and its error is returned; otherwise the parsed request is sent as it is and the response decoded |
| `Transport.SigningFailureSendsNothing` | v2/alpha/client.go:243-246 | a signing failure sends nothing and yields the signing error whatever the HTTP layer does |
| `Klines.SetOptional` | v2/alpha/market_service.go:205-216 | an optional parameter is written only when its setter was called, and no other key changes |
| `Klines.KlinesRequest` | v2/alpha/market_service.go:198-216 | a signed GET on the kline endpoint with `symbol` and `interval` always set and each optional parameter present exactly when set |
| `Klines.KlinesQueryRoundTrip` | v2/alpha/market_service.go:203-216 | reading the assembled query back gives the builder's parameters |
| `Klines.RecvWindowPrecedence` | v2/alpha/market_service.go:214-216 | a positive `WithRecvWindow` option overrides the builder's window; otherwise the builder's window, zero included, is what is sent |
| `Klines.AllRows` | v2/alpha/market_service.go:221-224 | the outer array decodes exactly when every element is an array or null, one row per element in order |
| `Klines.RowsRoundTrip` | v2/alpha/market_service.go:221-224 | the JSON of a list of rows decodes to those rows |
| `Klines.NonArrayHasNoRows` | v2/alpha/market_service.go:221-224 | a body that is neither an array nor null yields no rows |
| `Klines.DecodeRow` | v2/alpha/market_service.go:230-266 | each field is the element at its fixed position when that element has the field's type, else the zero value |
| `Klines.KlineRowRoundTrip` | v2/alpha/market_service.go:230-266 | decoding the twelve-element row of a kline gives the kline back |
| `Klines.RowKlineRoundTrip` | v2/alpha/market_service.go:230-266 | a well-typed row is, up to position 11, the row of its decoded kline |
| `Klines.DecodeRowIgnoresTail` | v2/alpha/market_service.go:227-266 | elements past position 11 never affect the decoded kline |
| `Klines.LongRows` | v2/alpha/market_service.go:226-229 | every kept row has at least twelve elements |
| `Klines.LongRowsAppend` | v2/alpha/market_service.go:226-267 | the filter distributes over concatenation, so input order is kept |
| `Klines.LongRowsMembers` | v2/alpha/market_service.go:225-268 | the kept rows are exactly the input rows of length at least twelve, never more rows than the input |
| `Klines.ShortRowSkipped` | v2/alpha/market_service.go:226-229 | a row shorter than twelve elements is dropped without effect on the others |
| `Klines.DecodeKlines` | v2/alpha/market_service.go:225-269 | one kline per row of length at least twelve, the i-th kline from the i-th such row |
| `Klines.DecodeBody` | v2/alpha/market_service.go:221-269 | a body that is not JSON, or is neither null nor an array whose elements are all arrays or null, is a decode error with no klines; otherwise one kline per row of at least twelve elements, in order (a null body or null row gives no klines and no error) |
| `Klines.GetKlines` | v2/alpha/market_service.go:197-270 | errors of the signed call pass through unchanged; otherwise the result is what the response body decodes to |

## Left out

- `validate` (v2/alpha/client.go:124-132): it only replaces nil maps by empty ones and always returns nil; the model does not distinguish a nil map from an empty one.
- `setParams` and `setFormParams`: they loop over a Go map in unspecified order and no modelled service calls them.
- `url.Values.Encode` and its percent-escaping: an abstract function in `Transport.Env`; key sorting is not assumed.
- `common.Hmac`: an abstract function that may fail; HMAC-SHA256 and hex encoding are not modelled.
- `http.Header.Set` canonicalises header names (`X-Mbx-Apikey`); the model keeps the names as written.
- The clock, `http.NewRequest`, `HTTPClient.Do`, `io.ReadAll`, context cancellation, TLS configuration, `SetApiEndpoint`, `SetTLSConfig` and logging: I/O, folded into the `Env` parameters or omitted.
- Transport.DecodeResponse: on a status below 400 with a failed body close, Go returns the data together with the close error; the model keeps only the error, which is what every caller acts on.
- The body is not closed when `io.ReadAll` fails; resource handling is not modelled.
- Errors of `io.Copy` when copying a raw body are ignored by the code and not modelled.
- JSON text parsing and `common.APIError` decoding and `IsValid`: abstract functions.
- Klines.DecodeRow: JSON numbers are integers in the model, so the `float64` to `int64`/`int` truncation of positions 0, 6 and 8 is not modelled.
- The other service wrappers of the package and of `v2`, the record types of `types.go`, and the futures interest service: parameter assembly plus `json.Unmarshal` with no further logic.
