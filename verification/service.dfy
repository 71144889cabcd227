/**
  The service's routing table: four handlers wrapped in the metrics
  middleware, and the metrics page served unwrapped.
 */
module Service {
  import opened Http
  import Health
  import Products
  import opened Metrics

  datatype Route = RootRoute | HealthRoute | LoginRoute | ProductsRoute | MetricsRoute

  const HealthPath: string := "/healthz"
  const LoginPath: string := "/login"
  const ProductsPath: string := "/products"
  const MetricsPath: string := "/metrics"

  const RootGreeting: string := "Welcome to the Go service!"
  const LoginReply: string := "Logged in"

  /** The mux: the four non-root patterns match their path exactly and
      `/` catches every other path. */
  function RouteOf(path: string): (r: Route)
    ensures r == RootRoute <==> path !in {HealthPath, LoginPath, ProductsPath, MetricsPath}
    ensures r == HealthRoute <==> path == HealthPath
    ensures r == LoginRoute <==> path == LoginPath
    ensures r == ProductsRoute <==> path == ProductsPath
    ensures r == MetricsRoute <==> path == MetricsPath
  {
    if path == HealthPath then HealthRoute
    else if path == LoginPath then LoginRoute
    else if path == ProductsPath then ProductsRoute
    else if path == MetricsPath then MetricsRoute
    else RootRoute
  }

  /** What the dependencies answer while one request is handled. */
  datatype Env = Env(db: Health.Probe, redis: Health.Probe, query: Products.Query)

  /** The response of the handler registered for `route` (none of them panics). */
  function Dispatch(env: Env, route: Route): Response
  {
    match route
    case RootRoute => Response(StatusOK, Text(RootGreeting))
    case LoginRoute => Response(StatusOK, Text(LoginReply))
    case HealthRoute =>
      var rep := Health.HealthHandler(env.db, env.redis);
      Response(rep.code, StatusJson(rep.status))
    case ProductsRoute => Products.ProductsHandler(env.query)
    case MetricsRoute => Response(StatusOK, Exposition)
  }

  /** One request through the mux. */
  function Serve(env: Env, c: Counters, req: Request): (s: Served)
    ensures s.outcome == Returned(Dispatch(env, RouteOf(req.path)))
    ensures req.path == MetricsPath ==> s.counters == c
    ensures req.path != MetricsPath ==>
              Count(s.counters, (req.path, req.verb)) == Count(c, (req.path, req.verb)) + 1
    ensures forall l :: l != (req.path, req.verb) ==> Count(s.counters, l) == Count(c, l)
  {
    var route := RouteOf(req.path);
    if route == MetricsRoute then Served(Returned(Dispatch(env, route)), c)
    else WithMetrics((r: Request) => Returned(Dispatch(env, route)), req, c)
  }

  /** The health response over HTTP: 200 exactly when both probes succeed. */
  lemma HealthEndpoint(env: Env, c: Counters, verb: string)
    ensures var resp := Serve(env, c, Request(HealthPath, verb)).outcome.response;
            && (resp.code == StatusOK <==> env.db.Reachable? && env.redis.Reachable?)
            && (resp.code == StatusOK || resp.code == StatusServiceUnavailable)
            && resp.body.StatusJson?
            && resp.body.status.Keys == {Health.DatabaseKey, Health.RedisKey}
  {
  }

  /** Two different unregistered paths both reach the root handler, yet each
      gets a counter of its own under its raw path; the `/` label is untouched. */
  lemma CatchAllLabelsRawPath(env: Env, env': Env, p: string, p': string, verb: string)
    requires p != p'
    requires RouteOf(p) == RootRoute && RouteOf(p') == RootRoute
    requires p != "/" && p' != "/"
    ensures var c := Serve(env', Serve(env, map[], Request(p, verb)).counters, Request(p', verb)).counters;
            && Count(c, (p, verb)) == 1
            && Count(c, (p', verb)) == 1
            && Count(c, ("/", verb)) == 0
  {
  }
}
