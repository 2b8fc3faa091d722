# Bandwidth statistics of the demo HTTP service, in Dafny

The service in `index.js` counts its own traffic. It keeps one process-wide
record, `bandwidthStats`, with five fields:

- a request counter;
- the inbound and outbound byte totals;
- the instant tracking started;
- a log of the last ten requests.

A middleware runs on each arriving request. It reads the `Content-Length`
header with `parseInt`, adds the result to the inbound total, and counts the
request. It also wraps `res.send`. When the response is sent, the wrapper
measures the payload's UTF-8 size and adds it to the outbound total. It then
appends a record to the log and trims the log to its last ten entries. The
route `GET /api/bandwidth-info` reports the raw totals, the last five log
records and the start instant. The route `POST /api/bandwidth-reset` replaces
the record with a zeroed one.

This project models that store and the functions it relies on:

- `js_numbers.dfy` (`JsNumbers`): a JavaScript number is either an exact
  integer or NaN. `+` lets NaN through. `parseInt` with no radix follows
  section 19.2.5 of ECMA-262: it skips leading white space, takes an optional
  sign, switches to radix 16 after `0x`, reads the longest run of digits, and
  gives NaN when there are none.
- `utf8.dfy` (`Utf8`): the UTF-8 encoding of section 3 of RFC 3629, with one
  to four bytes per scalar value.
- `byte_counter.dfy` (`ByteCounter`): the two byte counts. The outbound size
  is `Buffer.byteLength(data || '', 'utf8')` over a JavaScript string of UTF-16
  code units; a surrogate pair costs 4 bytes and a lone surrogate 3. The
  inbound size is `parseInt(header || '0')`.
- `request_log.dfy` (`RequestLog`): the log record, `Array.prototype.slice`
  with a negative start, and one push followed by the `slice(-10)` trim.
- `bandwidth.dfy` (`Bandwidth`): the store as a class, `StatsStore`, whose
  methods update its fields in place. `Aggregate` is the store's value and
  `Step`/`Run` say what a sequence of arrivals, sends and resets does to it.
  Each method's contract states the new fields and ties them to `Step`. The
  lemmas about `Run` state what holds over many requests.

Time is an integer number of milliseconds passed in by the caller.

Some consequences of the code that the lemmas make explicit:

- The middleware adds whatever `parseInt` returns. A header such as `-5`
  lowers the inbound total (`NegativeContentLengthLowersBytesIn`). A header
  that is not a number makes the total NaN until the next reset
  (`NonNumericContentLengthPoisons`, `NaNPoisonsBytesIn`). Only the request
  count and the outbound total are non-decreasing between resets
  (`TotalsGrowWithoutReset`).
- Only a missing or empty header falls back to `'0'` (`ContentLength`). A
  header with no leading digit gives NaN (`ContentLengthNonNumeric`); text
  after the digits is ignored (`ParseIntReadsFormat`).
- Nothing stops `res.send` from being called twice for one request: every
  call of the wrapper adds to the outbound total and the log. `Send` may
  therefore be called any number of times for one `InFlight`.
- The wrapper looks up the global record again when it runs, so a request
  can be counted in one record and logged in the next. The reset request
  itself does this (`ResetRequestSpansTwoEpochs`).
- The wrapper reads the request's method and URL when the response is sent,
  not on arrival, so `Send` takes them as parameters. Inside a handler
  mounted with a path, such as the 404 handler, Express has already
  rewritten `req.url` by then.

`StatsStore.Reset` overwrites all five fields in one assignment. The source
rebinds the global variable to a fresh object instead. Nothing else holds the
old object: the wrapper looks up the global each time it runs. The two are
therefore indistinguishable.

## Model

| member | source | states |
|---|---|---|
| `JsNumbers.Add` | index.js:64 | `+=` on numbers: the sum is NaN exactly when either side is NaN, and otherwise the integer sum |
| `JsNumbers.LeadingWhiteSpace` | index.js:63 | `parseInt` skips exactly the longest prefix of ECMA-262 white space and line terminators |
| `JsNumbers.DigitRun` | index.js:63 | `parseInt` reads exactly the longest prefix of digits of the radix |
| `JsNumbers.Negate` | index.js:63 | a leading `-` negates the magnitude; NaN stays NaN |
| `JsNumbers.ParseMagnitude` | index.js:63 | the unsigned part of `parseInt` never yields a negative number |
| `JsNumbers.ParseIntSigned` | index.js:63 | after the white space, `-` negates the magnitude read after it, `+` is skipped, and anything else starts the magnitude |
| `JsNumbers.ParseMagnitudeReadsHex` | index.js:63 | after `0x`, the hexadecimal digits of `n` followed by a non-digit read as `n` |
| `JsNumbers.ParseMagnitudeReadsDecimal` | index.js:63 | the decimal digits of `n` followed by neither a digit nor `x`/`X` read as `n` |
| `JsNumbers.ParseIntReadsFormat` | index.js:63 | `parseInt` reads back what `toString` writes, in decimal or behind `0x` in hexadecimal, after any white space and sign and before any trailing text that does not continue the number |
| `JsNumbers.ParseIntReadsDecimal` | index.js:63 | a padded, optionally signed decimal numeral reads as its value, negated after `-` |
| `JsNumbers.ParseIntNoDigits` | index.js:63 | text whose first significant character is not a digit reads as NaN |
| `JsNumbers.ParseIntOfZero` | index.js:63 | the fallback text `'0'` reads as 0 |
| `JsNumbers.FormatValue` | index.js:63 | the digits written for `n` denote `n`, which is what the `parseInt` round trips rest on |
| `Utf8.EncodeCodePoint` | index.js:69 | a scalar value is written as 1 to 4 bytes; the lead byte's range gives the length and every later byte is a continuation byte (section 3 of RFC 3629) |
| `Utf8.DecodeEncodeCodePoint` | index.js:69 | decoding the bytes written for a scalar value gives the value back |
| `Utf8.CodePointLength` | index.js:69 | the byte count charged for a scalar value is the length of its encoding |
| `Utf8.Length` | index.js:69 | a string of `n` scalar values takes between `n` and `4n` bytes |
| `Utf8.LengthIsEncodedSize` | index.js:69 | the computed length is the size of the actual encoding |
| `ByteCounter.CodeUnits` | index.js:69 | a JavaScript string holds a scalar value below U+10000 as that one code unit, and one above as a high and a low surrogate that combine back to the value |
| `ByteCounter.Utf8ByteLength` | index.js:69 | `Buffer.byteLength(str, 'utf8')` of `n` code units lies between `n` and `3n` |
| `ByteCounter.LoneSurrogateCostsThree` | index.js:69 | a surrogate code unit that does not open a pair is measured as U+FFFD, 3 bytes, whatever follows it |
| `ByteCounter.Utf8ByteLengthOfString` | index.js:69 | on a well-formed string, the measured size equals the UTF-8 length of its scalar values and the size of their encoding |
| `ByteCounter.ResponseSize` | index.js:69 | a null/undefined payload counts 0 bytes, a string between 1 and 3 bytes per code unit, a Buffer its length |
| `ByteCounter.ResponseSizeOfString` | index.js:69 | a well-formed string payload counts exactly the bytes of its UTF-8 encoding |
| `ByteCounter.ContentLength` | index.js:63 | a missing or empty `Content-Length` header counts as 0 inbound bytes |
| `ByteCounter.ContentLengthReadsDecimal` | index.js:63 | a padded, optionally signed decimal header reads as its value, negative after `-` |
| `ByteCounter.ContentLengthNonNumeric` | index.js:63 | a header starting with anything other than white space, a sign or a digit reads as NaN |
| `RequestLog.Slice` | index.js:84 | `slice(-k)` keeps the last `min(k, n)` elements in order; `slice(i)` with `i >= 0` drops the first `i` |
| `RequestLog.Logged` | index.js:73-85 | after one send the log holds `min(n+1, 10)` records: the new record is last, the rest are the old log's last records in order, nothing is evicted below capacity, and the oldest is evicted when the log was full |
| `RequestLog.LogAllKeepsLast` | index.js:73-85 | after any number of sends the log is the last 10 records of the old log followed by the new records, in send order |
| `RequestLog.FirstOfElevenIsEvicted` | index.js:82-85 | sending 11 responses into an empty log leaves records 2 to 11 |
| `Bandwidth.RunKeepsLogBounded` | index.js:82-85 | no sequence of arrivals, sends and resets takes the log past 10 records |
| `Bandwidth.RunWithoutReset` | index.js:63-84 | between resets, the request count grows by the number of arrivals, the inbound total by the sum of the parsed lengths (NaN poisons it), the outbound total by the sum of the response sizes, and the log is the last 10 records sent |
| `Bandwidth.TotalsGrowWithoutReset` | index.js:64-70 | between resets the request count and the outbound total never decrease; the inbound total does not decrease when the parsed lengths sum to a non-negative number |
| `Bandwidth.NaNPoisonsBytesIn` | index.js:64 | once the inbound total is NaN it stays NaN until the next reset |
| `Bandwidth.NegativeContentLengthLowersBytesIn` | index.js:63-64 | a `-n` header lowers the inbound total |
| `Bandwidth.NonNumericContentLengthPoisons` | index.js:63-64 | a non-numeric header makes the inbound total NaN |
| `Bandwidth.ResetForgetsHistory` | index.js:154-160 | a reset forgets all earlier events: the run continues exactly as from a fresh store |
| `Bandwidth.ReportOf` | index.js:132-149 | the report shows the raw totals, the start instant, and the last `min(5, n)` log records oldest first |
| `Bandwidth.ReportAfterReset` | index.js:147-160 | right after a reset the report shows zero totals, no records and the reset instant, whatever came before |
| `Bandwidth.ResetRequestSpansTwoEpochs` | index.js:63-84 | the reset request is counted in the replaced store but measured and logged in the fresh one, which then reports 0 requests and 1 record |
| `Bandwidth.StatsStore.constructor` | index.js:49-55 | the store starts with zero totals, an empty log and the start instant |
| `Bandwidth.StatsStore.Arrive` | index.js:59-65 | an arrival adds exactly 1 to the request count and the parsed `Content-Length` to the inbound total, leaves the outbound total, start instant and log unchanged, and keeps only the parsed length and the arrival instant for the response |
| `Bandwidth.StatsStore.Send` | index.js:68-85 | a send adds exactly the response's UTF-8 size to the outbound total, leaves the request count, inbound total and start instant unchanged, and logs the record; the record carries the method and URL read at send time, the length kept on arrival as `bytesIn` and the measured size as `bytesOut` |
| `Bandwidth.StatsStore.Reset` | index.js:153-160 | after a reset all totals are 0, the log is empty and the start instant is the reset instant, whatever the prior state |
| `Bandwidth.StatsStore.Report` | index.js:132-149 | the report is the projection `ReportOf` of the current store, and the store is not modified |

## Left out

- Express setup, routing, `app.listen`, the 404 handler and the other routes
  (`/`, `/api/health`, `/api/hello/:name`, `/api/echo`, `/api/disk-info`,
  `/api/system-info`): framework and network I/O, or stateless replies built
  from `process` calls.
- The middleware is registered after the routes (index.js:11-46), so those
  routes never reach it. This is dispatch order inside Express and is not
  modelled; `Arrive` models a request that does reach the middleware.
- The call to the original `res.send` (index.js:87) and `next()` (index.js:90):
  foreign framework calls. Only their effect on the store is modelled.
- Clock reads (`Date.now()`, `new Date()`) and ISO timestamp formatting: time is
  an integer parameter. The two reads at index.js:74 and 79 are taken as one
  instant.
- The report's KB conversions with `toFixed(2)` and the uptime figures from
  `process.uptime()` (index.js:129-144): floating point and a clock read. The
  JSON rendering of a NaN total (`null`) is not modelled either.
- Double-precision limits: numbers above 2^53 that `parseInt` or the totals
  would round, numerals long enough to become `Infinity`, and `-0`. The model
  uses exact integers, and `-0` only differs from 0 in ways the totals never
  show.
- `ByteCounter.ResponseSize`: payloads other than a string, a Buffer, `null` or
  `undefined` (numbers, booleans, objects handed straight to `res.send`) are not
  modelled. The routes send JSON strings through `res.json`.
- Node's own HTTP parser may reject a malformed `Content-Length` before the
  middleware runs. The model applies `parseInt` to whatever header text arrives,
  as index.js does.
- Concurrency: Node runs each handler to completion on one thread, so each
  method is one atomic step.
- The report's own response goes through the wrapped `res.send` after the
  projection is built, so reading the report is logged like any other request.
  `Report` models only the projection.
- How Express rewrites `req.url` inside handlers mounted with a path
  (index.js:204): framework behaviour. `Send` takes the method and URL the
  request carries when the response is sent as parameters.
