/**
 The documented rate limits on the requests themselves: who sent them, for which part of the API,
 and when. Buckets, keys and pruning do not occur in what is stated here.
 */
module RequestLimits {
  import opened Common
  import opened SlidingWindow
  import opened RateLimit

  /** The parts of the API that are limited separately. */
  datatype Zone = Auth | Webhooks | Ai | Rest

  function ZoneOf(path: string): Zone {
    if "/api/v1/auth/" <= path then Auth
    else if "/webhooks/" <= path then Webhooks
    else if "/api/v1/ai" <= path then Ai
    else Rest
  }

  function MostPerMinute(zone: Zone): nat {
    match zone
    case Auth => 10
    case Webhooks => 100
    case Ai => 20
    case Rest => 200
  }

  predicate Anonymous(host: Option<string>) {
    host == None || host == Some("unknown")
  }

  /** Clients without a host count as one, together with one that is called "unknown". */
  predicate SameClient(a: Option<string>, b: Option<string>) {
    a == b || (Anonymous(a) && Anonymous(b))
  }

  /** How many of the client's requests to the zone were accepted in (lo, hi]. */
  function AcceptedIn(
      reqs: seq<Request>, accepted: seq<bool>, host: Option<string>, zone: Zone, lo: real, hi: real): nat
    requires |accepted| == |reqs|
  {
    if reqs == [] then 0
    else
      var n := |reqs| - 1;
      AcceptedIn(reqs[..n], accepted[..n], host, zone, lo, hi)
      + if accepted[n] && SameClient(reqs[n].host, host) && ZoneOf(reqs[n].path) == zone && lo < reqs[n].now <= hi then 1
        else 0
  }

  /** The rule: fewer than the documented number accepted in the last sixty seconds, of everything before. */
  predicate MayPass(before: seq<Request>, accepted: seq<bool>, req: Request)
    requires |accepted| == |before|
  {
    var zone := ZoneOf(req.path);
    AcceptedIn(before, accepted, req.host, zone, req.now - 60.0, req.now) < MostPerMinute(zone)
  }

  function RuleDecisions(reqs: seq<Request>): (accepted: seq<bool>)
    ensures |accepted| == |reqs|
  {
    if reqs == [] then []
    else
      var n := |reqs| - 1;
      var earlier := RuleDecisions(reqs[..n]);
      earlier + [MayPass(reqs[..n], earlier, reqs[n])]
  }

  // ----- buckets are clients and zones -----

  function SuffixOf(zone: Zone): string {
    match zone
    case Auth => "/api/v1/auth/"
    case Webhooks => "/webhooks/"
    case Ai => "/api/v1/ai"
    case Rest => "default"
  }

  lemma ZoneFixesSuffix(path: string)
    ensures BucketSuffix(path) == SuffixOf(ZoneOf(path))
    ensures GetLimit(path) == Limit(MostPerMinute(ZoneOf(path)), 60.0)
  {
    SuffixCases(path);
  }

  lemma SuffixesOfZones(z: Zone, z': Zone)
    requires SuffixOf(z) == SuffixOf(z')
    ensures z == z'
  {
    var s, s' := SuffixOf(z), SuffixOf(z');
    assert |s| == |s'| && s[|s| - 2] == s'[|s'| - 2];
  }

  lemma HostNamesAgree(a: Option<string>, b: Option<string>)
    ensures HostName(a) == HostName(b) <==> SameClient(a, b)
  {
  }

  /** Two requests share a bucket exactly when they come from one client to one zone. */
  lemma {:induction false} SameBucketIff(host: Option<string>, path: string, host': Option<string>, path': string)
    ensures BucketKey(host, path) == BucketKey(host', path') <==> SameClient(host, host') && ZoneOf(path) == ZoneOf(path')
  {
    ZoneFixesSuffix(path);
    ZoneFixesSuffix(path');
    HostNamesAgree(host, host');
    if BucketKey(host, path) == BucketKey(host', path') {
      EqualKeysEqualLimits(host, path, host', path');
      SuffixesOfZones(ZoneOf(path), ZoneOf(path'));
    }
  }

  // ----- arrivals stand for requests -----

  /** The arrivals with this key are those of the client and zone. */
  predicate KeyOf(reqs: seq<Request>, arrivals: seq<Arrival>, key: string, host: Option<string>, zone: Zone)
    requires |arrivals| == |reqs|
  {
    forall i :: 0 <= i < |reqs| ==>
      (arrivals[i].key == key <==> SameClient(reqs[i].host, host) && ZoneOf(reqs[i].path) == zone)
  }

  /** Each arrival has its request's time and limit, and the key of its client and zone. */
  predicate StandFor(arrivals: seq<Arrival>, reqs: seq<Request>) {
    && |arrivals| == |reqs|
    && forall i :: 0 <= i < |reqs| ==>
         && arrivals[i].now == reqs[i].now
         && arrivals[i].limit == Limit(MostPerMinute(ZoneOf(reqs[i].path)), 60.0)
         && KeyOf(reqs, arrivals, arrivals[i].key, reqs[i].host, ZoneOf(reqs[i].path))
  }

  lemma {:induction false} BucketIsKeyOf(reqs: seq<Request>, host: Option<string>, path: string)
    ensures KeyOf(reqs, Arrivals(reqs), BucketKey(host, path), host, ZoneOf(path))
  {
    forall i | 0 <= i < |reqs|
      ensures Arrivals(reqs)[i].key == BucketKey(host, path)
         <==> SameClient(reqs[i].host, host) && ZoneOf(reqs[i].path) == ZoneOf(path)
    {
      SameBucketIff(reqs[i].host, reqs[i].path, host, path);
    }
  }

  lemma {:induction false} ArrivalsStandFor(reqs: seq<Request>)
    ensures StandFor(Arrivals(reqs), reqs)
  {
    var arrivals := Arrivals(reqs);
    forall i | 0 <= i < |reqs|
      ensures arrivals[i].limit == Limit(MostPerMinute(ZoneOf(reqs[i].path)), 60.0)
      ensures KeyOf(reqs, arrivals, arrivals[i].key, reqs[i].host, ZoneOf(reqs[i].path))
    {
      ZoneFixesSuffix(reqs[i].path);
      BucketIsKeyOf(reqs, reqs[i].host, reqs[i].path);
    }
  }

  // ----- the middleware follows the rule -----

  /** Counting a bucket's passes is counting the client's accepted requests. */
  lemma {:induction false} PassesAreAccepted(
      reqs: seq<Request>, arrivals: seq<Arrival>, accepted: seq<bool>, key: string,
      host: Option<string>, zone: Zone, lo: real, hi: real)
    requires |accepted| == |reqs| == |arrivals| && KeyOf(reqs, arrivals, key, host, zone)
    requires forall i :: 0 <= i < |reqs| ==> arrivals[i].now == reqs[i].now
    ensures CountIn(PassTimes(arrivals, accepted, key), lo, hi) == AcceptedIn(reqs, accepted, host, zone, lo, hi)
    decreases |reqs|
  {
    if reqs == [] {
    } else {
      var n := |reqs| - 1;
      PassesAreAccepted(reqs[..n], arrivals[..n], accepted[..n], key, host, zone, lo, hi);
      CountAppend(PassTimes(arrivals[..n], accepted[..n], key), reqs[n].now, lo, hi);
    }
  }

  /** The full-history rule of the buckets decides a request as the documented rule does. */
  lemma {:induction false} RulesAgree(reqs: seq<Request>, arrivals: seq<Arrival>, accepted: seq<bool>, n: nat)
    requires n < |reqs| && |accepted| == n && StandFor(arrivals, reqs)
    ensures IdealPasses(PassTimes(arrivals[..n], accepted, arrivals[n].key), arrivals[n])
         == MayPass(reqs[..n], accepted, reqs[n])
  {
    var req, zone := reqs[n], ZoneOf(reqs[n].path);
    assert KeyOf(reqs, arrivals, arrivals[n].key, req.host, zone);
    PassesAreAccepted(
      reqs[..n], arrivals[..n], accepted, arrivals[n].key, req.host, zone, req.now - 60.0, req.now);
  }

  lemma {:induction false} StandForPrefix(arrivals: seq<Arrival>, reqs: seq<Request>, n: nat)
    requires StandFor(arrivals, reqs) && n <= |reqs|
    ensures StandFor(arrivals[..n], reqs[..n])
  {
    forall i | 0 <= i < n
      ensures KeyOf(reqs[..n], arrivals[..n], arrivals[..n][i].key, reqs[..n][i].host, ZoneOf(reqs[..n][i].path))
    {
      assert KeyOf(reqs, arrivals, arrivals[i].key, reqs[i].host, ZoneOf(reqs[i].path));
    }
  }

  lemma {:induction false} IdealIsRule(arrivals: seq<Arrival>, reqs: seq<Request>)
    requires StandFor(arrivals, reqs)
    ensures IdealDecisions(arrivals) == RuleDecisions(reqs)
    decreases |reqs|
  {
    if reqs == [] {
    } else {
      var n := |reqs| - 1;
      StandForPrefix(arrivals, reqs, n);
      IdealIsRule(arrivals[..n], reqs[..n]);
      RulesAgree(reqs, arrivals, RuleDecisions(reqs[..n]), n);
    }
  }

  // ----- main results -----

  /** The middleware accepts and refuses exactly as the documented rule does, over every history. */
  lemma {:induction false} MiddlewareFollowsRule(reqs: seq<Request>)
    requires ClockMonotonic(reqs)
    ensures Decisions(Arrivals(reqs)) == RuleDecisions(reqs)
  {
    MiddlewareRefinesFullHistory(reqs);
    ArrivalsStandFor(reqs);
    IdealIsRule(Arrivals(reqs), reqs);
  }

  lemma {:induction false} ServedThenNext(arrivals: seq<Arrival>, all: seq<Arrival>, a: Arrival)
    requires all == arrivals + [a]
    ensures Decisions(all) == Decisions(arrivals) + [Passes(StoreAfter(arrivals), a)]
  {
    ServeAppend(arrivals, a);
  }

  lemma {:induction false} RuleAppend(reqs: seq<Request>, req: Request)
    ensures RuleDecisions(reqs + [req]) == RuleDecisions(reqs) + [MayPass(reqs, RuleDecisions(reqs), req)]
  {
    assert (reqs + [req])[..|reqs|] == reqs;
  }

  lemma {:induction false} LastEqual<T>(a: seq<T>, x: T, b: seq<T>, y: T)
    requires a + [x] == b + [y]
    ensures x == y
  {
    assert (a + [x])[|a + [x]| - 1] == x && (b + [y])[|b + [y]| - 1] == y;
  }

  lemma {:induction false} ArrivalsAppend(reqs: seq<Request>, req: Request)
    ensures Arrivals(reqs + [req]) == Arrivals(reqs) + [Classify(req)]
  {
    var all, some := Arrivals(reqs + [req]), Arrivals(reqs) + [Classify(req)];
    forall i | 0 <= i < |all| ensures all[i] == some[i] {
    }
  }

  lemma {:induction false} NextAgrees(arrivals: seq<Arrival>, a: Arrival, reqs: seq<Request>, req: Request)
    requires Decisions(arrivals + [a]) == RuleDecisions(reqs + [req])
    ensures Passes(StoreAfter(arrivals), a) == MayPass(reqs, RuleDecisions(reqs), req)
  {
    ServedThenNext(arrivals, arrivals + [a], a);
    RuleAppend(reqs, req);
    LastEqual(Decisions(arrivals), Passes(StoreAfter(arrivals), a),
              RuleDecisions(reqs), MayPass(reqs, RuleDecisions(reqs), req));
  }

  /** So does one more dispatch on the store that the history left. */
  lemma {:induction false} NextDispatchFollowsRule(reqs: seq<Request>, req: Request)
    requires ClockMonotonic(reqs + [req])
    ensures Passes(StoreAfter(Arrivals(reqs)), Classify(req)) == MayPass(reqs, RuleDecisions(reqs), req)
  {
    MiddlewareFollowsRule(reqs + [req]);
    ArrivalsAppend(reqs, req);
    NextAgrees(Arrivals(reqs), Classify(req), reqs, req);
  }

  /** In no minute, wherever it starts, are more of a client's requests to a zone accepted than documented. */
  lemma {:induction false} NoMinuteOverflows(reqs: seq<Request>, host: Option<string>, path: string, start: real)
    requires ClockMonotonic(reqs)
    ensures AcceptedIn(reqs, RuleDecisions(reqs), host, ZoneOf(path), start, start + 60.0) <= MostPerMinute(ZoneOf(path))
  {
    MiddlewareFollowsRule(reqs);
    ZoneFixesSuffix(path);
    LimitHoldsInEveryWindow(reqs, host, path, start);
    BucketIsKeyOf(reqs, host, path);
    PassesAreAccepted(
      reqs, Arrivals(reqs), RuleDecisions(reqs), BucketKey(host, path), host, ZoneOf(path), start, start + 60.0);
  }
}
