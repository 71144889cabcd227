/**
  The request-count middleware: the wrapped handler runs, then the counter
  labelled with the request's raw path and method is incremented by one.
 */
module Metrics {
  import opened Http

  /** Counter label values: (`r.URL.Path`, `r.Method`). */
  type Label = (string, string)

  /** The `http_requests_total` counter vector: one child per label pair seen. */
  type Counters = map<Label, nat>

  function LabelOf(req: Request): Label {
    (req.path, req.verb)
  }

  /** A child that was never created reads as zero. */
  function Count(c: Counters, l: Label): nat {
    if l in c then c[l] else 0
  }

  /** `WithLabelValues(l).Inc()`: creates the child if needed and adds one. */
  function Inc(c: Counters, l: Label): (c': Counters)
    ensures Count(c', l) == Count(c, l) + 1
    ensures forall other :: other != l ==> Count(c', other) == Count(c, other)
    ensures forall other :: other != l && other in c ==> other in c' && c'[other] == c[other]
    ensures c'.Keys == c.Keys + {l}
  {
    c[l := Count(c, l) + 1]
  }

  /** How the wrapped handler ends: it returns a response, or panics, which
      unwinds through the middleware before the increment is reached. */
  datatype Outcome = Returned(response: Response) | Panicked

  datatype Served = Served(outcome: Outcome, counters: Counters)

  /** `withMetrics(handler)` applied to one request. */
  function WithMetrics(handler: Request -> Outcome, req: Request, c: Counters): (s: Served)
    ensures s.outcome == handler(req)
    ensures s.outcome.Returned? ==> Count(s.counters, LabelOf(req)) == Count(c, LabelOf(req)) + 1
    ensures s.outcome.Panicked? ==> s.counters == c
    ensures forall l :: l != LabelOf(req) ==> Count(s.counters, l) == Count(c, l)
    ensures forall l :: l != LabelOf(req) && l in c ==> l in s.counters && s.counters[l] == c[l]
    ensures s.counters.Keys <= c.Keys + {LabelOf(req)}
  {
    var outcome := handler(req);
    if outcome.Panicked? then Served(outcome, c)
    else Served(outcome, Inc(c, LabelOf(req)))
  }

  /** Counters after the wrapped handler served `reqs` one after another. */
  function ServeAll(handler: Request -> Outcome, reqs: seq<Request>, c: Counters): Counters
    decreases |reqs|
  {
    if reqs == [] then c
    else ServeAll(handler, reqs[1..], WithMetrics(handler, reqs[0], c).counters)
  }

  /** Reference count: requests in `reqs` carrying label `l` whose handler returned. */
  function CompletedWith(handler: Request -> Outcome, reqs: seq<Request>, l: Label): nat
    decreases |reqs|
  {
    if reqs == [] then 0
    else (if LabelOf(reqs[0]) == l && handler(reqs[0]).Returned? then 1 else 0)
           + CompletedWith(handler, reqs[1..], l)
  }

  /** Over any run, each counter grows by exactly the number of completed
      requests carrying its label, so it never decreases. */
  lemma {:induction false} ServeAllCounts(handler: Request -> Outcome, reqs: seq<Request>, c: Counters, l: Label)
    ensures Count(ServeAll(handler, reqs, c), l) == Count(c, l) + CompletedWith(handler, reqs, l)
    ensures Count(c, l) <= Count(ServeAll(handler, reqs, c), l)
    decreases |reqs|
  {
    if reqs != [] {
      var next := WithMetrics(handler, reqs[0], c).counters;
      ServeAllCounts(handler, reqs[1..], next, l);
    }
  }
}
