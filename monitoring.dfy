/** The in-memory request metrics, the bounded error buffer, the status a
    request is recorded with, and the redaction of logged request bodies.
    Clock readings are parameters. */
module Monitoring {
  import opened Wrappers
  import opened Seqs

  // ---------------------------------------------------------------------
  // Request metrics

  /** `endpoint_stats[endpoint]` */
  datatype EndpointStats = EndpointStats(count: nat, totalTime: real, avgTime: real, slowCount: nat)

  const ZERO_STATS := EndpointStats(0, 0.0, 0.0, 0)

  /** A request slower than this many seconds counts as slow. */
  const SLOW_SECONDS: real := 1.0

  /** An endpoint's stats agree with each other: it was seen, its slow
      requests are among its requests, and its average is its total over
      its count. */
  predicate Consistent(s: EndpointStats) {
    s.count >= 1 && s.slowCount <= s.count && s.avgTime * s.count as real == s.totalTime
  }

  /** The stats after one more request taking `duration` seconds. */
  function Recorded(s: EndpointStats, duration: real): (r: EndpointStats)
    ensures r.count == s.count + 1 && r.totalTime == s.totalTime + duration
    ensures r.slowCount == s.slowCount + (if duration > SLOW_SECONDS then 1 else 0)
    ensures s.slowCount <= s.count ==> Consistent(r)
  {
    var count := s.count + 1;
    var total := s.totalTime + duration;
    EndpointStats(count, total, total / count as real, s.slowCount + if duration > SLOW_SECONDS then 1 else 0)
  }

  function Sum(ds: seq<real>): real {
    if ds == [] then 0.0 else Sum(ds[..|ds| - 1]) + ds[|ds| - 1]
  }

  function CountSlow(ds: seq<real>): nat {
    if ds == [] then 0 else CountSlow(ds[..|ds| - 1]) + if ds[|ds| - 1] > SLOW_SECONDS then 1 else 0
  }

  /** The stats of an endpoint after the requests taking `ds` seconds, in order. */
  function RecordedAll(s: EndpointStats, ds: seq<real>): EndpointStats {
    if ds == [] then s else Recorded(RecordedAll(s, ds[..|ds| - 1]), ds[|ds| - 1])
  }

  /** From the zeroed stats of a first sighting, the stats after requests
      taking `ds` seconds count them, sum their durations, average them and
      count the slow ones. */
  lemma {:induction false} RecordedAllFromZero(ds: seq<real>)
    ensures var r := RecordedAll(ZERO_STATS, ds);
            && r.count == |ds| && r.totalTime == Sum(ds) && r.slowCount == CountSlow(ds)
            && (ds != [] ==> r.avgTime == Sum(ds) / |ds| as real)
  {
    if ds != [] {
      RecordedAllFromZero(ds[..|ds| - 1]);
    }
  }

  /** What `PerformanceMonitor.metrics` holds. */
  class PerformanceMonitor {
    var totalRequests: nat
    var slowRequests: nat
    var failedRequests: nat
    var endpointStats: map<string, EndpointStats>

    /** Every endpoint seen was seen at least once, its average is its
        total over its count, and slow requests are among the requests. */
    ghost predicate Valid()
      reads this
    {
      && slowRequests <= totalRequests && failedRequests <= totalRequests
      && forall e :: e in endpointStats ==> Consistent(endpointStats[e])
    }

    constructor ()
      ensures Valid()
      ensures totalRequests == 0 && slowRequests == 0 && failedRequests == 0 && endpointStats == map[]
    {
      totalRequests := 0;
      slowRequests := 0;
      failedRequests := 0;
      endpointStats := map[];
    }

    /** `record_request`: one more request in total, for the endpoint
        (zeroed stats on its first sighting), and among the slow or failed
        ones when it took more than a second or its status is 400 or above. */
    method RecordRequest(endpoint: string, duration: real, statusCode: int)
      requires Valid()
      modifies this
      ensures Valid()
      ensures totalRequests == old(totalRequests) + 1
      ensures slowRequests == old(slowRequests) + (if duration > SLOW_SECONDS then 1 else 0)
      ensures failedRequests == old(failedRequests) + (if statusCode >= 400 then 1 else 0)
      ensures endpointStats ==
                old(endpointStats)[endpoint := Recorded(if endpoint in old(endpointStats) then old(endpointStats)[endpoint]
                                                        else ZERO_STATS, duration)]
    {
      totalRequests := totalRequests + 1;
      var before := if endpoint in endpointStats then endpointStats[endpoint] else ZERO_STATS;
      var stats := Recorded(before, duration);
      endpointStats := endpointStats[endpoint := stats];
      if duration > SLOW_SECONDS {
        slowRequests := slowRequests + 1;
      }
      if statusCode >= 400 {
        failedRequests := failedRequests + 1;
      }
    }
  }

  // ---------------------------------------------------------------------
  // Status handling of `performance_logging`

  /** How the wrapped view ended: it returned a value, a tuple whose second
      element is `status` or something else, or it raised. */
  datatype ViewResult = ReturnedTuple(status: int) | ReturnedOther | Raised

  /** The status a request is recorded with. */
  function RecordedStatus(v: ViewResult): (s: int)
    ensures v.ReturnedTuple? ==> s == v.status
    ensures v.ReturnedOther? ==> s == 200
    ensures v.Raised? ==> s == 500
  {
    match v
    case ReturnedTuple(status) => status
    case ReturnedOther => 200
    case Raised => 500
  }

  /** The name a request is recorded under: the endpoint, or the path when
      the endpoint is missing or empty. */
  function EndpointName(endpoint: Option<string>, path: string): (r: string)
    ensures endpoint.Some? && endpoint.value != "" ==> r == endpoint.value
    ensures endpoint.None? || endpoint.value == "" ==> r == path
  {
    if endpoint.Some? && endpoint.value != "" then endpoint.value else path
  }

  /** `performance_logging` around a view that ended as `v` after
      `duration` seconds: the request is recorded exactly once, a raised
      error as a failed request with status 500. */
  method PerformanceLogging(monitor: PerformanceMonitor, v: ViewResult, endpoint: Option<string>, path: string,
                            duration: real)
    requires monitor.Valid()
    modifies monitor
    ensures monitor.Valid()
    ensures monitor.totalRequests == old(monitor.totalRequests) + 1
    ensures v.Raised? ==> monitor.failedRequests == old(monitor.failedRequests) + 1
    ensures monitor.failedRequests == old(monitor.failedRequests) + (if RecordedStatus(v) >= 400 then 1 else 0)
    ensures monitor.slowRequests == old(monitor.slowRequests) + (if duration > SLOW_SECONDS then 1 else 0)
    ensures var name := EndpointName(endpoint, path);
            monitor.endpointStats ==
              old(monitor.endpointStats)[name := Recorded(if name in old(monitor.endpointStats)
                                                          then old(monitor.endpointStats)[name] else ZERO_STATS,
                                                          duration)]
    ensures EndpointName(endpoint, path) in monitor.endpointStats
  {
    monitor.RecordRequest(EndpointName(endpoint, path), duration, RecordedStatus(v));
  }

  // ---------------------------------------------------------------------
  // Redaction

  const SENSITIVE_KEYS: set<string> := {"password", "token", "secret"}

  /** The logged copy of a request body: the value of every sensitive key
      replaced by the mask. */
  function Redact<V>(body: map<string, V>, mask: V): (r: map<string, V>)
    ensures r.Keys == body.Keys
    ensures forall k :: k in body && k in SENSITIVE_KEYS ==> r[k] == mask
    ensures forall k :: k in body && k !in SENSITIVE_KEYS ==> r[k] == body[k]
  {
    map k | k in body :: if k in SENSITIVE_KEYS then mask else body[k]
  }

  /** No value under a sensitive key survives, whatever it was, and
      redacting twice is redacting once. */
  lemma RedactHides<V>(body: map<string, V>, other: map<string, V>, mask: V)
    requires body.Keys == other.Keys
    requires forall k :: k in body && k !in SENSITIVE_KEYS ==> body[k] == other[k]
    ensures Redact(body, mask) == Redact(other, mask)
    ensures Redact(Redact(body, mask), mask) == Redact(body, mask)
  {
  }

  // ---------------------------------------------------------------------
  // Error buffer

  /** The request an error happened in, each part absent outside a request. */
  datatype RequestInfo = RequestInfo(httpMethod: Option<string>, path: Option<string>, ip: Option<string>)

  datatype ErrorEntry = ErrorEntry(
    timestamp: real,
    errorType: string,
    message: string,
    traceback: Option<string>,
    context: map<string, string>,
    request: RequestInfo)

  const MAX_ERRORS: nat := 100

  /** The number of entries of type `t`. */
  function CountOfType(errors: seq<ErrorEntry>, t: string): (n: nat)
    ensures n <= |errors|
  {
    if errors == [] then 0
    else CountOfType(errors[..|errors| - 1], t) + if errors[|errors| - 1].errorType == t then 1 else 0
  }

  /** The `by_type` table: the count of each type that occurs. */
  function TypeCounts(errors: seq<ErrorEntry>): (m: map<string, nat>)
    ensures forall t :: t in m <==> CountOfType(errors, t) > 0
    ensures forall t :: t in m ==> m[t] == CountOfType(errors, t)
  {
    if errors == [] then map[]
    else
      var m := TypeCounts(errors[..|errors| - 1]);
      var t := errors[|errors| - 1].errorType;
      m[t := (if t in m then m[t] else 0) + 1]
  }

  /** A type is counted exactly when some entry has it. */
  lemma {:induction false} CountPositiveIff(errors: seq<ErrorEntry>, t: string)
    ensures CountOfType(errors, t) > 0 <==> exists i :: 0 <= i < |errors| && errors[i].errorType == t
  {
    if errors != [] {
      var init := errors[..|errors| - 1];
      CountPositiveIff(init, t);
      assert forall i :: 0 <= i < |init| ==> init[i] == errors[i];
    }
  }

  /** The sum of the values of a map. */
  ghost function MapSum(m: map<string, nat>): nat
    decreases |m.Keys|
  {
    if m == map[] then 0
    else
      var k :| k in m;
      m[k] + MapSum(m - {k})
  }

  /** The sum does not depend on which key is taken first. */
  lemma {:induction false} MapSumRemove(m: map<string, nat>, k: string)
    requires k in m
    ensures MapSum(m) == m[k] + MapSum(m - {k})
    decreases |m.Keys|
  {
    var j :| j in m && MapSum(m) == m[j] + MapSum(m - {j});
    if j != k {
      assert (m - {j}) - {k} == (m - {k}) - {j};
      MapSumRemove(m - {j}, k);
      MapSumRemove(m - {k}, j);
    }
  }

  /** Raising one value raises the sum by as much; adding a key adds its value. */
  lemma MapSumUpdate(m: map<string, nat>, k: string, v: nat)
    ensures MapSum(m[k := v]) == MapSum(m) - (if k in m then m[k] else 0) + v
  {
    var m' := m[k := v];
    MapSumRemove(m', k);
    assert m' - {k} == m - {k};
    if k in m {
      MapSumRemove(m, k);
    } else {
      assert m - {k} == m;
    }
  }

  /** The `by_type` counts add up to `total_errors`. */
  lemma {:induction false} TypeCountsSum(errors: seq<ErrorEntry>)
    ensures MapSum(TypeCounts(errors)) == |errors|
  {
    if errors != [] {
      var init := errors[..|errors| - 1];
      TypeCountsSum(init);
      var m := TypeCounts(init);
      var t := errors[|errors| - 1].errorType;
      MapSumUpdate(m, t, (if t in m then m[t] else 0) + 1);
    }
  }

  /** `errors[-limit:]`: the last `limit` entries for a positive limit, the
      whole list for 0, and the list without its first `-limit` entries for
      a negative one. */
  function LastEntries(errors: seq<ErrorEntry>, limit: int): (r: seq<ErrorEntry>)
    ensures |r| <= |errors|
    ensures limit >= 0 ==> r == TakeLast(errors, limit)
    ensures limit < 0 ==> r == errors[if -limit <= |errors| then -limit else |errors|..]
  {
    if limit >= 0 then TakeLast(errors, limit)
    else errors[if -limit <= |errors| then -limit else |errors|..]
  }

  /** The statistics `get_error_stats` reports. */
  datatype ErrorStats = ErrorStats(totalErrors: nat, byType: map<string, nat>, recentErrors: seq<ErrorEntry>)

  class ErrorTracker {
    var errors: seq<ErrorEntry>

    ghost predicate Valid()
      reads this
    {
      |errors| <= MAX_ERRORS
    }

    constructor ()
      ensures Valid() && errors == []
    {
      errors := [];
    }

    /** `log_error`: the new entry is appended and only the last 100 are
        kept; a missing context is stored as an empty one. */
    method LogError(timestamp: real, errorType: string, message: string, traceback: Option<string>,
                    context: Option<map<string, string>>, request: RequestInfo)
      requires Valid()
      modifies this
      ensures Valid()
      ensures errors == TakeLast(old(errors) + [ErrorEntry(timestamp, errorType, message, traceback,
                                                           context.GetOr(map[]), request)], MAX_ERRORS)
      ensures errors[|errors| - 1].errorType == errorType
      ensures |errors| == if |old(errors)| < MAX_ERRORS then |old(errors)| + 1 else MAX_ERRORS
    {
      var entry := ErrorEntry(timestamp, errorType, message, traceback, context.GetOr(map[]), request);
      errors := errors + [entry];
      if |errors| > MAX_ERRORS {
        errors := errors[|errors| - MAX_ERRORS..];
      }
    }

    /** `get_recent_errors(limit)` */
    function RecentErrors(limit: int): (r: seq<ErrorEntry>)
      reads this
      ensures |r| <= |errors|
      ensures limit > 0 ==> |r| == (if |errors| <= limit then |errors| else limit)
      ensures limit == 0 ==> r == errors
      ensures forall i :: 0 <= i < |r| ==> r[i] == errors[|errors| - |r| + i]
    {
      LastEntries(errors, limit)
    }

    /** `get_error_stats`: the number of entries, the count of each type in
        one pass over the entries, and the last five entries. */
    method GetErrorStats() returns (stats: ErrorStats)
      ensures stats.totalErrors == |errors|
      ensures stats.byType == TypeCounts(errors)
      ensures stats.recentErrors == RecentErrors(5)
    {
      var byType: map<string, nat> := map[];
      var i := 0;
      while i < |errors|
        invariant 0 <= i <= |errors|
        invariant byType == TypeCounts(errors[..i])
      {
        var t := errors[i].errorType;
        byType := byType[t := (if t in byType then byType[t] else 0) + 1];
        assert errors[..i + 1][..i] == errors[..i];
        i := i + 1;
      }
      assert errors[..i] == errors;
      stats := ErrorStats(|errors|, byType, RecentErrors(5));
    }
  }
}
