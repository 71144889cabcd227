/**
  The health endpoint: two dependency probes (database and redis) folded into
  a status map and an HTTP code, one `if err != nil` block per probe.
 */
module Health {
  import opened Http

  /** Outcome of one ping. The error is only logged, never put in the body. */
  datatype Probe = Reachable | Failed(error: string)

  const DatabaseKey: string := "database"
  const RedisKey: string := "redis"
  const OkWord: string := "ok"
  const UnreachableWord: string := "unreachable"

  /** The handler's two local variables: the `status` map and the `code`. */
  datatype Report = Report(status: map<string, string>, code: int)

  /** The word one probe contributes to the body. */
  function Word(p: Probe): string {
    if p.Reachable? then OkWord else UnreachableWord
  }

  /** Both keys present and "ok", code 200: the state before any probe is examined. */
  const Initial: Report := Report(map[DatabaseKey := OkWord, RedisKey := OkWord], StatusOK)

  /** One `if err != nil { status[key] = "unreachable"; code = 503 }` block. */
  function Check(rep: Report, key: string, p: Probe): (r: Report)
    ensures r.code == StatusOK <==> rep.code == StatusOK && p.Reachable?
    ensures rep.code == StatusServiceUnavailable ==> r.code == StatusServiceUnavailable
    ensures r.code == rep.code || r.code == StatusServiceUnavailable
    ensures p.Failed? ==> key in r.status && r.status[key] == UnreachableWord
    ensures forall k :: k in rep.status && (k != key || p.Reachable?) ==>
              k in r.status && r.status[k] == rep.status[k]
    ensures r.status.Keys == rep.status.Keys + (if p.Reachable? then {} else {key})
  {
    if p.Reachable? then rep
    else Report(rep.status[key := UnreachableWord], StatusServiceUnavailable)
  }

  /** `healthHandler`: database checked first, then redis. */
  function HealthHandler(db: Probe, redis: Probe): (r: Report)
    ensures r.code == StatusOK <==> db.Reachable? && redis.Reachable?
    ensures r.code != StatusOK ==> r.code == StatusServiceUnavailable
    ensures r.status.Keys == {DatabaseKey, RedisKey}
    ensures r.status[DatabaseKey] == Word(db) && r.status[RedisKey] == Word(redis)
    ensures forall k :: k in r.status ==> r.status[k] == OkWord || r.status[k] == UnreachableWord
  {
    Check(Check(Initial, DatabaseKey, db), RedisKey, redis)
  }

  /** The handler's unit test: both dependencies up gives 200 and two "ok" fields. */
  lemma HealthyResponse()
    ensures HealthHandler(Reachable, Reachable)
            == Report(map["database" := "ok", "redis" := "ok"], 200)
  {
  }

  /** Each field depends on its own probe only. */
  lemma FieldsIndependent(db: Probe, db': Probe, redis: Probe, redis': Probe)
    ensures HealthHandler(db, redis).status[DatabaseKey] == HealthHandler(db, redis').status[DatabaseKey]
    ensures HealthHandler(db, redis).status[RedisKey] == HealthHandler(db', redis).status[RedisKey]
  {
  }

  /** The error a probe reports never influences the response. */
  lemma ErrorTextNeverShown(e: string, e': string, p: Probe)
    ensures HealthHandler(Failed(e), p) == HealthHandler(Failed(e'), p)
    ensures HealthHandler(p, Failed(e)) == HealthHandler(p, Failed(e'))
  {
  }

  /** Any one failing probe forces 503, whatever the other probe says. */
  lemma OneFailureSuffices(e: string, p: Probe)
    ensures HealthHandler(Failed(e), p).code == StatusServiceUnavailable
    ensures HealthHandler(p, Failed(e)).code == StatusServiceUnavailable
  {
  }

  /** Two checks can be done in either order, whether or not their keys differ. */
  lemma ChecksCommute(rep: Report, k: string, p: Probe, k': string, p': Probe)
    ensures Check(Check(rep, k, p), k', p') == Check(Check(rep, k', p'), k, p)
  {
  }

  /** Checking redis before the database gives the same response. */
  lemma OrderIrrelevant(db: Probe, redis: Probe)
    ensures HealthHandler(db, redis) == Check(Check(Initial, RedisKey, redis), DatabaseKey, db)
  {
  }

  /** The handler's sequence of `if` blocks over any list of named probes. */
  function RunChecks(rep: Report, checks: seq<(string, Probe)>): Report
    decreases |checks|
  {
    if checks == [] then rep
    else RunChecks(Check(rep, checks[0].0, checks[0].1), checks[1..])
  }

  /** The handler is the run of its two checks, database first. */
  lemma HandlerRunsBothChecks(db: Probe, redis: Probe)
    ensures HealthHandler(db, redis) == RunChecks(Initial, [(DatabaseKey, db), (RedisKey, redis)])
  {
    var cs := [(DatabaseKey, db), (RedisKey, redis)];
    var afterDb := Check(Initial, DatabaseKey, db);
    assert cs[1..] == [(RedisKey, redis)];
    assert RunChecks(Initial, cs) == RunChecks(afterDb, cs[1..]);
    assert cs[1..][1..] == [];
    assert RunChecks(afterDb, cs[1..]) == RunChecks(Check(afterDb, RedisKey, redis), []);
  }

  /** The code after all checks is 200 exactly when it started at 200 and
      every probe was reachable: the AND of all probes. In particular, once
      503 is set no later reachable probe resets it. */
  lemma {:induction false} RunChecksIsConjunction(rep: Report, checks: seq<(string, Probe)>)
    ensures RunChecks(rep, checks).code == StatusOK <==>
              rep.code == StatusOK && forall i :: 0 <= i < |checks| ==> checks[i].1.Reachable?
    ensures rep.code == StatusServiceUnavailable ==> RunChecks(rep, checks).code == StatusServiceUnavailable
    decreases |checks|
  {
    if checks != [] {
      var next := Check(rep, checks[0].0, checks[0].1);
      RunChecksIsConjunction(next, checks[1..]);
      assert forall i :: 1 <= i < |checks| ==> checks[i] == checks[1..][i - 1];
    }
  }

  /** Each key already in the map ends as "unreachable" exactly when some
      check on that key failed, and keeps its value otherwise. */
  lemma {:induction false} RunChecksStatus(rep: Report, checks: seq<(string, Probe)>, k: string)
    requires k in rep.status
    ensures k in RunChecks(rep, checks).status
    ensures RunChecks(rep, checks).status[k] ==
              if exists i :: 0 <= i < |checks| && checks[i].0 == k && checks[i].1.Failed?
              then UnreachableWord else rep.status[k]
    decreases |checks|
  {
    if checks != [] {
      var next := Check(rep, checks[0].0, checks[0].1);
      RunChecksStatus(next, checks[1..], k);
      assert forall i :: 1 <= i < |checks| ==> checks[i] == checks[1..][i - 1];
      if checks[0].0 == k && checks[0].1.Failed? {
        assert next.status[k] == UnreachableWord;
      }
    }
  }
}
