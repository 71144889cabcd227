# Health, product listing and request counting of the Go service

This project models the decision logic of the Go HTTP service in
`go-services/main.go`. The network calls are replaced by abstract outcomes,
which leaves three pure pieces and the routing table that joins them:

- **Health aggregation** (`healthHandler`). Two ping outcomes become a status map and an HTTP code.
  The map is `{"database", "redis"}` ↦ `"ok"` / `"unreachable"`, and the code is 200 or 503.
- **Product listing** (`productsHandler`). A query outcome becomes either `500 "DB error"`
  or the names of the rows whose scan succeeded, in row order, kept as a Go slice.
  If no scan succeeds, that slice stays `nil`, so the body is JSON `null` and not `[]`.
- **Request counting** (`withMetrics`). The wrapped handler runs first. Then the
  `http_requests_total` child for the raw `(path, method)` pair goes up by one.
- **Routing** (`main`'s `HandleFunc` calls). Four paths match exactly and `/` catches the rest.
  Every route except `/metrics` is wrapped by the counting middleware.

Files: `http.dfy` (requests, responses, status codes, the `nil`-aware string slice),
`health.dfy`, `products.dfy`, `metrics.dfy`, `service.dfy`.

Partners used by the proofs:
- `Health.RunChecks` is a generic fold of the handler's `if` blocks over any list of named probes.
  It is proved to be the AND of all probes.
- `Products.ScannedNames` is a declarative filter. It is the reference for the append loop `Products.Collect`.
  `Products.ScannedIndices` is the index witness that the result is an in-order subsequence.
- `Metrics.CompletedWith` counts completed requests per label. It is the reference for the counters after a run.

## Behaviour of `main.go` the model keeps

- Neither request-time ping (lines 135-136) carries a context deadline. Only the client libraries' own defaults bound them, and probe timeouts are not modelled.
- `products` is declared as a nil slice (line 178) and encoded as is (line 188). When no scan succeeds, the body is `null`, not an empty array.
- The counter is labelled with the raw request path and method (line 199), not with the route pattern.
- The handler runs before the increment (lines 196-199), and the increment is not deferred. A handler that panics therefore leaves the counter unchanged.

## Model

| member | source | states |
|---|---|---|
| Health.Check | go-services/main.go:144-151 | One `if err != nil` block. The code stays 200 only if it was 200 and the probe succeeded. A 503 is never reset. A failed probe marks its own key `"unreachable"`. Every other key keeps its value, and the key set grows only by the failed key. |
| Health.HealthHandler | go-services/main.go:134-151 | The code is 200 iff both probes succeed, and 503 otherwise. The body has exactly the keys `"database"` and `"redis"`. Each value is the word for its own probe, so it is always `"ok"` or `"unreachable"`. |
| Health.HealthyResponse | go-services/main_test.go:9-20 | With both dependencies reachable, the handler gives 200 and `{"database":"ok","redis":"ok"}`. |
| Health.FieldsIndependent | go-services/main.go:144-151 | The `"database"` field does not depend on the redis probe, and the `"redis"` field does not depend on the database probe. |
| Health.ErrorTextNeverShown | go-services/main.go:135-151 | Two failures with different error texts give identical responses, so no error text reaches the body. |
| Health.OneFailureSuffices | go-services/main.go:143-151 | One failing probe forces 503, whatever the other probe reports. |
| Health.ChecksCommute | go-services/main.go:144-151 | Two checks give the same report in either order, on different keys or the same key. |
| Health.OrderIrrelevant | go-services/main.go:144-151 | Checking redis before the database gives the same report as the handler's order. |
| Health.HandlerRunsBothChecks | go-services/main.go:138-151 | The handler equals the generic fold of its two checks, database first, started from the all-`"ok"` map with code 200. |
| Health.RunChecksIsConjunction | go-services/main.go:143-151 | After any list of checks, the code is 200 iff it started at 200 and every probe was reachable. A 503 stays 503. |
| Health.RunChecksStatus | go-services/main.go:138-151 | After any list of checks, a key ends `"unreachable"` iff some check on that key failed. Otherwise it keeps its initial value. |
| Products.Collect | go-services/main.go:178-186 | The collected slice is nil iff every scan failed. A non-nil result is non-empty. It never has more names than there are rows. |
| Products.CollectIsFilter | go-services/main.go:178-186 | The loop collects exactly the reference filter: the names of the successfully scanned rows, in row order. |
| Products.CollectIsOrderedSelection | go-services/main.go:178-186 | Name k comes from row idx[k], and that row scanned. The indices ascend strictly. Every row that scanned is included, so the result is the in-order subsequence. |
| Products.FailedScanSkipped | go-services/main.go:179-185 | A failed scan between two stretches of rows leaves the names of both stretches as they would be alone. The loop does not abort. |
| Products.ScannedNamesBounds | go-services/main.go:178-186 | There are never more names than rows. There are no names iff every scan failed. |
| Products.ProductsHandler | go-services/main.go:169-190 | A failed query gives exactly `500 "DB error"` and no list. A successful query gives 200 and the scanned names in order. The slice is nil, so JSON `null`, exactly when no name was collected. |
| Products.QueryErrorHidden | go-services/main.go:170-174 | The query's error text never influences the response. |
| Metrics.Inc | go-services/main.go:199 | The counter for the label grows by exactly one. Every other counter is unchanged. The label is added to the known children. |
| Metrics.WithMetrics | go-services/main.go:193-201 | The response is the wrapped handler's own. If the handler returns, its label's counter grows by exactly one. If it panics, the counters are unchanged. No other label changes. |
| Metrics.ServeAllCounts | go-services/main.go:193-201 | After any run of requests, each counter has grown by exactly the number of completed requests with its label, so it never decreases. |
| Service.RouteOf | go-services/main.go:53-57 | `/healthz`, `/login`, `/products` and `/metrics` are each chosen exactly for their own path. The root handler gets every path outside the four registered ones. |
| Service.Serve | go-services/main.go:53-57 | The response is the routed handler's. `/metrics` is not counted. Every other request raises the counter of its raw `(path, method)` by one and leaves the others alone. |
| Service.HealthEndpoint | go-services/main.go:54 | Over HTTP, `/healthz` answers 200 iff both probes succeed, and 503 otherwise. The body is a two-key status object. |
| Service.CatchAllLabelsRawPath | go-services/main.go:53 | Two different unregistered paths both go to the root handler. Each gets its own counter under its raw path, and the `/` label is not incremented. |

## Left out

- `main`, `initLog`, `initMetrics`, `initTracer`, `initDB`, `initRedis`: startup I/O, environment reads, DSN formatting and fatal exits.
- The `db.Ping`, `rdb.Ping`, `db.Query` and `rows.Scan` calls: driver and network I/O, modelled only as the outcomes `Health.Probe`, `Products.Query` and `Products.Scan`.
- `rows.Err()` is never checked and `rows.Close()` has no visible effect. The row sequence is taken as given.
- The latency histogram at lines 195-200: it observes wall-clock seconds as a float.
- Prometheus registry internals, and the atomicity of concurrent increments: this is library code and concurrency. Requests are served one after another.
- JSON encoding and the trailing newline `json.Encoder` writes: the body is kept as the Go value before encoding.
- `http.Error`'s trailing newline and its content-type headers: library behaviour. The body holds the message argument `"DB error"`.
- Write and encode errors on the response writer: these are only logged.
- All `log.Printf` / `log.Println` lines: logging side effects.
- `rootHandler`, `loginHandler` and the `promhttp` page: modelled only as constant responses inside `Service.Dispatch`.
- Metrics.Inc: label values are Dafny strings, so they are always valid Unicode text. In Go, the decoded `r.URL.Path` may hold bytes that are not valid UTF-8 (`GET /%FF`). The client library rejects such a label, so line 199 panics after the handler has run and no counter is incremented. That case is not modelled.
- Metrics.WithMetrics: takes the path and method as valid UTF-8 text. The panic at line 199 on a non-UTF-8 path is not modelled, so the "grows by one" clause covers only valid text.
- Service.Serve: takes paths as valid UTF-8 text. For a non-UTF-8 path such as `/%FF`, the program does not increment any counter, and the root response is never finished. The model does not cover this case.
- The mux's redirects for non-canonical paths: requests are taken to carry canonical paths.
- `dockerfiles/Dockerfile.go`: build configuration.
