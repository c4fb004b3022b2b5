/** The rate-limiting middleware: path limits, bucket keys, and the sliding window per bucket. */
module RateLimit {
  import opened Common
  import opened SlidingWindow

  datatype PathLimit = PathLimit(prefix: string, limit: Limit)

  const PATH_LIMITS: seq<PathLimit> := [
    PathLimit("/api/v1/auth/", Limit(10, 60.0)),
    PathLimit("/webhooks/", Limit(100, 60.0)),
    PathLimit("/api/v1/ai", Limit(20, 60.0))]

  const DEFAULT_LIMIT := Limit(200, 60.0)

  datatype Request = Request(host: Option<string>, path: string, now: real)

  // ----- limits and bucket keys -----

  /** The i-th entry is the first whose prefix the path starts with. */
  predicate MatchesFirst(path: string, entries: seq<PathLimit>, i: nat) {
    i < |entries| && entries[i].prefix <= path && forall j :: 0 <= j < i ==> !(entries[j].prefix <= path)
  }

  /** The first entry whose prefix the path starts with. */
  function FirstMatch(path: string, entries: seq<PathLimit>): (r: Option<PathLimit>)
    ensures r.Some? ==> exists i: nat :: MatchesFirst(path, entries, i) && r.value == entries[i]
    ensures r.None? ==> forall i :: 0 <= i < |entries| ==> !(entries[i].prefix <= path)
  {
    if entries == [] then None
    else if entries[0].prefix <= path then
      assert MatchesFirst(path, entries, 0);
      Some(entries[0])
    else
      var rest := FirstMatch(path, entries[1..]);
      assert rest.Some? ==>
        exists i: nat :: MatchesFirst(path, entries[1..], i) && rest.value == entries[1..][i]
                         && MatchesFirst(path, entries, i + 1);
      rest
  }

  function GetLimit(path: string): Limit {
    match FirstMatch(path, PATH_LIMITS)
    case Some(entry) => entry.limit
    case None => DEFAULT_LIMIT
  }

  function HostName(host: Option<string>): string {
    if host.Some? then host.value else "unknown"
  }

  function BucketSuffix(path: string): string {
    match FirstMatch(path, PATH_LIMITS)
    case Some(entry) => entry.prefix
    case None => "default"
  }

  function BucketKey(host: Option<string>, path: string): string {
    HostName(host) + ":" + BucketSuffix(path)
  }

  /** What the limiter sees of a request. */
  function Classify(req: Request): Arrival {
    Arrival(BucketKey(req.host, req.path), GetLimit(req.path), req.now)
  }

  /** Suffix and limit of a path, by the first of the three prefixes that it starts with. */
  lemma SuffixCases(path: string)
    ensures var auth := "/api/v1/auth/" <= path;
      var hook := "/webhooks/" <= path;
      var ai := "/api/v1/ai" <= path;
      (BucketSuffix(path), GetLimit(path)) ==
        if auth then ("/api/v1/auth/", Limit(10, 60.0))
        else if hook then ("/webhooks/", Limit(100, 60.0))
        else if ai then ("/api/v1/ai", Limit(20, 60.0))
        else ("default", Limit(200, 60.0))
  {
    assert PATH_LIMITS[0].prefix == "/api/v1/auth/" && PATH_LIMITS[1].prefix == "/webhooks/";
    assert PATH_LIMITS[2].prefix == "/api/v1/ai";
    var found := FirstMatch(path, PATH_LIMITS);
    if found.Some? {
      var i: nat :| MatchesFirst(path, PATH_LIMITS, i) && found.value == PATH_LIMITS[i];
      assert i == 0 || i == 1 || i == 2;
    }
  }

  predicate IsSuffix(s: string) {
    s == "/api/v1/auth/" || s == "/webhooks/" || s == "/api/v1/ai" || s == "default"
  }

  /** The last two characters tell the four suffixes apart. */
  lemma SuffixesDiffer(s: string, s': string)
    requires IsSuffix(s) && IsSuffix(s')
    requires s[|s| - 2] == s'[|s'| - 2] && s[|s| - 1] == s'[|s'| - 1]
    ensures s == s'
  {
  }

  /** Texts that end in a colon and a suffix are equal only part by part. */
  lemma KeyParts(h: string, s: string, h': string, s': string)
    requires IsSuffix(s) && IsSuffix(s') && h + ":" + s == h' + ":" + s'
    ensures h == h' && s == s'
  {
    var k := h + ":" + s;
    assert k[|k| - 2] == s[|s| - 2] && k[|k| - 1] == s[|s| - 1];
    assert k[|k| - 2] == s'[|s'| - 2] && k[|k| - 1] == s'[|s'| - 1];
    SuffixesDiffer(s, s');
    assert k[..|k| - |s| - 1] == h;
    assert k[..|k| - |s| - 1] == h';
  }

  lemma SuffixDecidesLimit(path: string, path': string)
    ensures IsSuffix(BucketSuffix(path))
    ensures BucketSuffix(path) == BucketSuffix(path') ==> GetLimit(path) == GetLimit(path')
  {
    SuffixCases(path);
    SuffixCases(path');
  }

  /** The key string determines host and bucket, whatever characters the host contains. */
  lemma EqualKeysEqualLimits(host: Option<string>, path: string, host': Option<string>, path': string)
    requires BucketKey(host, path) == BucketKey(host', path')
    ensures HostName(host) == HostName(host')
    ensures BucketSuffix(path) == BucketSuffix(path') && GetLimit(path) == GetLimit(path')
  {
    SuffixDecidesLimit(path, path');
    SuffixDecidesLimit(path', path);
    KeyParts(HostName(host), BucketSuffix(path), HostName(host'), BucketSuffix(path'));
  }

  // ----- the middleware -----

  /** The comprehension that keeps the times after the cutoff. */
  method Evict(timestamps: seq<real>, cutoff: real) returns (kept: seq<real>)
    ensures kept == After(timestamps, cutoff)
  {
    kept := [];
    var i := 0;
    while i < |timestamps|
      invariant 0 <= i <= |timestamps|
      invariant kept == After(timestamps[..i], cutoff)
    {
      assert timestamps[..i + 1][..i] == timestamps[..i];
      if timestamps[i] > cutoff {
        kept := kept + [timestamps[i]];
      }
      i := i + 1;
    }
    assert timestamps[..i] == timestamps;
  }

  class RateLimiter {
    var store: map<string, seq<real>>

    constructor ()
      ensures store == map[]
    {
      store := map[];
    }

    /** True when the request is passed on, false for the 429 response. */
    method Dispatch(req: Request) returns (accepted: bool)
      modifies this
      ensures accepted == Passes(old(store), Classify(req)) && store == Admit(old(store), Classify(req))
    {
      var limit := GetLimit(req.path);
      var key := BucketKey(req.host, req.path);
      var timestamps := if key in store then store[key] else [];
      var cutoff := req.now - limit.window;
      var kept := Evict(timestamps, cutoff);
      assert kept == Kept(old(store), Classify(req));
      store := store[key := kept];
      if |kept| >= limit.maxRequests {
        return false;
      }
      store := store[key := kept + [req.now]];
      assert store == old(store)[key := kept + [req.now]];
      return true;
    }
  }

  function Arrivals(reqs: seq<Request>): seq<Arrival> {
    seq(|reqs|, i requires 0 <= i < |reqs| => Classify(reqs[i]))
  }

  /** The clock of the requests never goes back. */
  predicate ClockMonotonic(reqs: seq<Request>) {
    forall i, j :: 0 <= i <= j < |reqs| ==> reqs[i].now <= reqs[j].now
  }

  lemma BucketHasItsLimit(reqs: seq<Request>, host: Option<string>, path: string)
    ensures BucketHasLimit(Arrivals(reqs), BucketKey(host, path), GetLimit(path))
  {
    forall i | 0 <= i < |reqs| && Arrivals(reqs)[i].key == BucketKey(host, path)
      ensures Arrivals(reqs)[i].limit == GetLimit(path)
    {
      EqualKeysEqualLimits(reqs[i].host, reqs[i].path, host, path);
    }
  }

  lemma BucketsHaveOneLimit(reqs: seq<Request>)
    ensures OneLimitPerBucket(Arrivals(reqs))
  {
    forall i | 0 <= i < |reqs| ensures BucketHasLimit(Arrivals(reqs), Arrivals(reqs)[i].key, Arrivals(reqs)[i].limit) {
      BucketHasItsLimit(reqs, reqs[i].host, reqs[i].path);
    }
  }

  // ----- main results -----

  /** The middleware decides every request of every history as the full-history rule does. */
  lemma {:induction false} MiddlewareRefinesFullHistory(reqs: seq<Request>)
    requires ClockMonotonic(reqs)
    ensures Decisions(Arrivals(reqs)) == IdealDecisions(Arrivals(reqs))
  {
    BucketsHaveOneLimit(reqs);
    LimiterRefinesIdeal(Arrivals(reqs));
  }

  /** No client gets more than its path's limit through in any window, wherever the window starts. */
  lemma LimitHoldsInEveryWindow(reqs: seq<Request>, host: Option<string>, path: string, start: real)
    requires ClockMonotonic(reqs)
    ensures var passed := PassTimes(Arrivals(reqs), Decisions(Arrivals(reqs)), BucketKey(host, path));
      WindowHolds(passed, GetLimit(path), start)
  {
    MiddlewareRefinesFullHistory(reqs);
    BucketHasItsLimit(reqs, host, path);
    NoWindowOverflows(Arrivals(reqs), BucketKey(host, path), GetLimit(path), start);
  }
}
