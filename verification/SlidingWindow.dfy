/**
 The sliding window itself: arrivals already sorted into buckets. The limiter keeps, per
 bucket, only the acceptance times that are still inside the window; the specification looks
 at the complete history. Times are readings of a monotonic clock, so they never decrease.
 */
module SlidingWindow {

  datatype Limit = Limit(maxRequests: nat, window: real)

  datatype Arrival = Arrival(key: string, limit: Limit, now: real)

  type Store = map<string, seq<real>>

  // ----- the limiter -----

  /** The times strictly after the cutoff, in order. */
  function After(times: seq<real>, cutoff: real): seq<real> {
    if times == [] then []
    else
      var init := After(times[..|times| - 1], cutoff);
      if times[|times| - 1] > cutoff then init + [times[|times| - 1]] else init
  }

  function Bucket(store: Store, key: string): seq<real> {
    if key in store then store[key] else []
  }

  /** What eviction leaves of the arrival's bucket. */
  function Kept(store: Store, a: Arrival): seq<real> {
    After(Bucket(store, a.key), a.now - a.limit.window)
  }

  function Pushed(times: seq<real>, t: real, ok: bool): seq<real> {
    if ok then times + [t] else times
  }

  predicate Passes(store: Store, a: Arrival) {
    |Kept(store, a)| < a.limit.maxRequests
  }

  function Admit(store: Store, a: Arrival): Store {
    store[a.key := Pushed(Kept(store, a), a.now, Passes(store, a))]
  }

  /** The store after serving the arrivals in order. */
  function StoreAfter(arrivals: seq<Arrival>): Store {
    if arrivals == [] then map[]
    else Admit(StoreAfter(arrivals[..|arrivals| - 1]), arrivals[|arrivals| - 1])
  }

  /** The decisions taken while serving the arrivals in order. */
  function Decisions(arrivals: seq<Arrival>): (passed: seq<bool>)
    ensures |passed| == |arrivals|
  {
    if arrivals == [] then []
    else
      Decisions(arrivals[..|arrivals| - 1])
      + [Passes(StoreAfter(arrivals[..|arrivals| - 1]), arrivals[|arrivals| - 1])]
  }

  // ----- the specification over the full history -----

  /** Times at which the bucket's arrivals were let through, oldest first. */
  function PassTimes(arrivals: seq<Arrival>, passed: seq<bool>, key: string): seq<real>
    requires |passed| == |arrivals|
  {
    if arrivals == [] then []
    else
      var n := |arrivals| - 1;
      Pushed(PassTimes(arrivals[..n], passed[..n], key), arrivals[n].now, passed[n] && arrivals[n].key == key)
  }

  /** How many of the times lie in the half-open interval (lo, hi]. */
  function CountIn(times: seq<real>, lo: real, hi: real): nat {
    if times == [] then 0
    else
      CountIn(times[..|times| - 1], lo, hi)
      + if lo < times[|times| - 1] <= hi then 1 else 0
  }

  /** The rule: fewer passes than allowed in (now - window, now], counted over everything that ever passed. */
  predicate IdealPasses(past: seq<real>, a: Arrival) {
    CountIn(past, a.now - a.limit.window, a.now) < a.limit.maxRequests
  }

  function IdealDecisions(arrivals: seq<Arrival>): (passed: seq<bool>)
    ensures |passed| == |arrivals|
  {
    if arrivals == [] then []
    else
      var n := |arrivals| - 1;
      var earlier := IdealDecisions(arrivals[..n]);
      earlier + [IdealPasses(PassTimes(arrivals[..n], earlier, arrivals[n].key), arrivals[n])]
  }

  /** The clock never goes back. */
  predicate Monotonic(arrivals: seq<Arrival>) {
    forall i, j :: 0 <= i <= j < |arrivals| ==> arrivals[i].now <= arrivals[j].now
  }

  predicate NoneLater(arrivals: seq<Arrival>, hi: real) {
    forall i :: 0 <= i < |arrivals| ==> arrivals[i].now <= hi
  }

  /** Every arrival of the bucket comes with this limit. */
  predicate BucketHasLimit(arrivals: seq<Arrival>, key: string, limit: Limit) {
    forall i :: 0 <= i < |arrivals| && arrivals[i].key == key ==> arrivals[i].limit == limit
  }

  predicate OneLimitPerBucket(arrivals: seq<Arrival>) {
    forall i :: 0 <= i < |arrivals| ==> BucketHasLimit(arrivals, arrivals[i].key, arrivals[i].limit)
  }

  // ----- unfolding one arrival -----

  lemma AfterAppend(times: seq<real>, t: real, cutoff: real)
    ensures After(times + [t], cutoff) == Pushed(After(times, cutoff), t, t > cutoff)
  {
    assert (times + [t])[..|times|] == times;
  }

  lemma CountAppend(times: seq<real>, t: real, lo: real, hi: real)
    ensures CountIn(times + [t], lo, hi) == CountIn(times, lo, hi) + if lo < t <= hi then 1 else 0
  {
    assert (times + [t])[..|times|] == times;
  }

  lemma ServeAppend(init: seq<Arrival>, a: Arrival)
    ensures StoreAfter(init + [a]) == Admit(StoreAfter(init), a)
    ensures Decisions(init + [a]) == Decisions(init) + [Passes(StoreAfter(init), a)]
  {
    assert (init + [a])[..|init|] == init;
  }

  lemma PassTimesAppend(init: seq<Arrival>, a: Arrival, passed: seq<bool>, ok: bool, key: string)
    requires |passed| == |init|
    ensures PassTimes(init + [a], passed + [ok], key)
         == Pushed(PassTimes(init, passed, key), a.now, ok && a.key == key)
  {
    assert (init + [a])[..|init|] == init;
    assert (passed + [ok])[..|init|] == passed;
  }

  lemma IdealAppend(init: seq<Arrival>, a: Arrival)
    ensures IdealDecisions(init + [a])
         == IdealDecisions(init) + [IdealPasses(PassTimes(init, IdealDecisions(init), a.key), a)]
  {
    assert (init + [a])[..|init|] == init;
  }

  // ----- pruning is invisible -----

  /** Pruning early does not change what a later, tighter pruning leaves. */
  lemma {:induction false} AfterTwice(times: seq<real>, early: real, late: real)
    requires early <= late
    ensures After(After(times, early), late) == After(times, late)
  {
    if times == [] {
    } else {
      var init, t := times[..|times| - 1], times[|times| - 1];
      AfterTwice(init, early, late);
      if t > early {
        AfterAppend(After(init, early), t, late);
      } else {
        assert After(times, early) == After(init, early);
      }
    }
  }

  lemma {:induction false} AfterIsCount(times: seq<real>, lo: real, hi: real)
    requires forall i :: 0 <= i < |times| ==> times[i] <= hi
    ensures |After(times, lo)| == CountIn(times, lo, hi)
  {
    if times == [] {
    } else {
      AfterIsCount(times[..|times| - 1], lo, hi);
    }
  }

  lemma {:induction false} PassTimesNoneLater(arrivals: seq<Arrival>, passed: seq<bool>, key: string, hi: real)
    requires |passed| == |arrivals| && NoneLater(arrivals, hi)
    ensures forall i :: 0 <= i < |PassTimes(arrivals, passed, key)| ==> PassTimes(arrivals, passed, key)[i] <= hi
  {
    if arrivals == [] {
    } else {
      var n := |arrivals| - 1;
      PassTimesNoneLater(arrivals[..n], passed[..n], key, hi);
    }
  }

  /** One arrival keeps the pruned list and the full list in step beyond the cutoff. */
  lemma PruneStep(bucket: seq<real>, past: seq<real>, early: real, cutoff: real, t: real, ok: bool)
    requires early <= cutoff
    requires After(bucket, cutoff) == After(past, cutoff)
    ensures After(Pushed(After(bucket, early), t, ok), cutoff) == After(Pushed(past, t, ok), cutoff)
  {
    AfterTwice(bucket, early, cutoff);
    AfterAppend(After(bucket, early), t, cutoff);
    AfterAppend(past, t, cutoff);
  }

  /** One arrival of any bucket keeps a bucket's pruned list and full list in step. */
  lemma ServingKeepsStep(store: Store, past: seq<real>, a: Arrival, key: string, limit: Limit, cutoff: real)
    requires a.key == key ==> a.limit == limit && a.now <= cutoff + limit.window
    requires After(Bucket(store, key), cutoff) == After(past, cutoff)
    ensures After(Bucket(Admit(store, a), key), cutoff)
         == After(Pushed(past, a.now, Passes(store, a) && a.key == key), cutoff)
  {
    if a.key == key {
      PruneStep(Bucket(store, key), past, a.now - limit.window, cutoff, a.now, Passes(store, a));
    }
  }

  /** The bucket's passes and store after one more arrival. */
  lemma ServePassTimes(init: seq<Arrival>, a: Arrival, key: string)
    ensures PassTimes(init + [a], Decisions(init + [a]), key)
         == Pushed(PassTimes(init, Decisions(init), key), a.now, Passes(StoreAfter(init), a) && a.key == key)
  {
    ServeAppend(init, a);
    PassTimesAppend(init, a, Decisions(init), Passes(StoreAfter(init), a), key);
  }

  /**
   What the pruned bucket still holds after a cutoff is what the full history holds after it,
   for every cutoff that no served arrival's window has passed.
   */
  lemma {:induction false} PruningIsInvisible(arrivals: seq<Arrival>, key: string, limit: Limit, cutoff: real)
    requires BucketHasLimit(arrivals, key, limit) && NoneLater(arrivals, cutoff + limit.window)
    ensures After(Bucket(StoreAfter(arrivals), key), cutoff)
         == After(PassTimes(arrivals, Decisions(arrivals), key), cutoff)
    decreases |arrivals|
  {
    if arrivals == [] {
    } else {
      var init, a := arrivals[..|arrivals| - 1], arrivals[|arrivals| - 1];
      assert arrivals == init + [a];
      PruningIsInvisible(init, key, limit, cutoff);
      ServeAppend(init, a);
      ServePassTimes(init, a, key);
      ServingKeepsStep(StoreAfter(init), PassTimes(init, Decisions(init), key), a, key, limit, cutoff);
    }
  }

  // ----- main results -----

  /** The limiter and the rule agree on an arrival when bucket and history agree beyond its cutoff. */
  lemma {:induction false} AgreeOnArrival(store: Store, past: seq<real>, a: Arrival)
    requires forall i :: 0 <= i < |past| ==> past[i] <= a.now
    requires var cutoff := a.now - a.limit.window; After(Bucket(store, a.key), cutoff) == After(past, cutoff)
    ensures Passes(store, a) == IdealPasses(past, a)
  {
    AfterIsCount(past, a.now - a.limit.window, a.now);
  }

  lemma {:induction false} ServingRefines(init: seq<Arrival>, a: Arrival)
    requires BucketHasLimit(init, a.key, a.limit) && NoneLater(init, a.now)
    ensures Passes(StoreAfter(init), a) == IdealPasses(PassTimes(init, Decisions(init), a.key), a)
  {
    PruningIsInvisible(init, a.key, a.limit, a.now - a.limit.window);
    PassTimesNoneLater(init, Decisions(init), a.key, a.now);
    AgreeOnArrival(StoreAfter(init), PassTimes(init, Decisions(init), a.key), a);
  }

  /** The pruning limiter decides every arrival of every history as the full-history rule does. */
  lemma {:induction false} LimiterRefinesIdeal(arrivals: seq<Arrival>)
    requires Monotonic(arrivals) && OneLimitPerBucket(arrivals)
    ensures Decisions(arrivals) == IdealDecisions(arrivals)
    decreases |arrivals|
  {
    if arrivals == [] {
    } else {
      var init, a := arrivals[..|arrivals| - 1], arrivals[|arrivals| - 1];
      LimiterRefinesIdeal(init);
      ServingRefines(init, a);
    }
  }

  lemma {:induction false} CountInWider(times: seq<real>, lo: real, hi: real, lo': real, hi': real)
    requires lo' <= lo && forall i :: 0 <= i < |times| ==> times[i] <= hi'
    ensures CountIn(times, lo, hi) <= CountIn(times, lo', hi')
  {
    if times == [] {
    } else {
      CountInWider(times[..|times| - 1], lo, hi, lo', hi');
    }
  }

  /** A pass that the rule allows leaves every interval of the window's length within the limit. */
  lemma PassFitsWindow(past: seq<real>, a: Arrival, start: real)
    requires IdealPasses(past, a) && forall i :: 0 <= i < |past| ==> past[i] <= a.now
    requires CountIn(past, start, start + a.limit.window) <= a.limit.maxRequests
    ensures CountIn(past + [a.now], start, start + a.limit.window) <= a.limit.maxRequests
  {
    var end := start + a.limit.window;
    CountAppend(past, a.now, start, end);
    if start < a.now <= end {
      CountInWider(past, start, end, a.now - a.limit.window, a.now);
    }
  }

  /** The passes that the rule allows, after one more arrival. */
  lemma IdealPassTimes(init: seq<Arrival>, a: Arrival, key: string)
    ensures var past := PassTimes(init, IdealDecisions(init), key);
      PassTimes(init + [a], IdealDecisions(init + [a]), key)
        == if a.key == key && IdealPasses(past, a) then past + [a.now] else past
  {
    IdealAppend(init, a);
    var ok := IdealPasses(PassTimes(init, IdealDecisions(init), a.key), a);
    PassTimesAppend(init, a, IdealDecisions(init), ok, key);
  }

  /** The half-open interval as long as the window that starts here holds no more than the limit. */
  predicate WindowHolds(times: seq<real>, limit: Limit, start: real) {
    CountIn(times, start, start + limit.window) <= limit.maxRequests
  }

  lemma ServingKeepsWindow(init: seq<Arrival>, a: Arrival, key: string, limit: Limit, start: real)
    requires (a.key == key ==> a.limit == limit) && NoneLater(init, a.now)
    requires WindowHolds(PassTimes(init, IdealDecisions(init), key), limit, start)
    ensures WindowHolds(PassTimes(init + [a], IdealDecisions(init + [a]), key), limit, start)
  {
    IdealPassTimes(init, a, key);
    var past := PassTimes(init, IdealDecisions(init), key);
    if a.key == key && IdealPasses(past, a) {
      PassTimesNoneLater(init, IdealDecisions(init), key, a.now);
      PassFitsWindow(past, a, start);
    }
  }

  /** No half-open interval as long as the window, wherever it starts, holds more passes than allowed. */
  lemma {:induction false} NoWindowOverflows(arrivals: seq<Arrival>, key: string, limit: Limit, start: real)
    requires Monotonic(arrivals) && BucketHasLimit(arrivals, key, limit)
    ensures WindowHolds(PassTimes(arrivals, IdealDecisions(arrivals), key), limit, start)
    decreases |arrivals|
  {
    if arrivals == [] {
    } else {
      var init, a := arrivals[..|arrivals| - 1], arrivals[|arrivals| - 1];
      NoWindowOverflows(init, key, limit, start);
      ServingKeepsWindow(init, a, key, limit, start);
      assert arrivals == init + [a];
    }
  }

  // ----- closed intervals -----

  /** How many of the times lie in the closed interval [lo, hi]. */
  function CountClosed(times: seq<real>, lo: real, hi: real): nat {
    if times == [] then 0
    else
      CountClosed(times[..|times| - 1], lo, hi)
      + if lo <= times[|times| - 1] <= hi then 1 else 0
  }

  predicate Sorted(times: seq<real>) {
    forall i, j :: 0 <= i <= j < |times| ==> times[i] <= times[j]
  }

  lemma {:induction false} PassTimesSorted(arrivals: seq<Arrival>, passed: seq<bool>, key: string)
    requires |passed| == |arrivals| && Monotonic(arrivals)
    ensures Sorted(PassTimes(arrivals, passed, key))
  {
    if arrivals == [] {
    } else {
      var n := |arrivals| - 1;
      PassTimesSorted(arrivals[..n], passed[..n], key);
      PassTimesNoneLater(arrivals[..n], passed[..n], key, arrivals[n].now);
    }
  }

  /** A stretch of sorted times inside a closed interval counts there in full. */
  lemma {:induction false} StretchInClosed(times: seq<real>, i: nat, j: nat, lo: real, hi: real)
    requires Sorted(times) && i <= j < |times| && lo <= times[i] && times[j] <= hi
    ensures CountClosed(times, lo, hi) >= j - i + 1
  {
    var n := |times| - 1;
    if j < n {
      StretchInClosed(times[..n], i, j, lo, hi);
    } else if i < j {
      StretchInClosed(times[..n], i, j - 1, lo, hi);
    }
  }

  /** The same for a half-open interval. */
  lemma {:induction false} StretchInHalfOpen(times: seq<real>, i: nat, j: nat, lo: real, hi: real)
    requires Sorted(times) && i <= j < |times| && lo < times[i] && times[j] <= hi
    ensures CountIn(times, lo, hi) >= j - i + 1
  {
    var n := |times| - 1;
    if j < n {
      StretchInHalfOpen(times[..n], i, j, lo, hi);
    } else if i < j {
      StretchInHalfOpen(times[..n], i, j - 1, lo, hi);
    }
  }

  /** Conversely, k + 1 times in a closed interval include two that stand k places apart. */
  lemma {:induction false} ClosedHasStretch(times: seq<real>, k: nat, lo: real, hi: real) returns (i: nat)
    requires Sorted(times) && CountClosed(times, lo, hi) >= k + 1
    ensures i + k < |times| && lo <= times[i] && times[i + k] <= hi
  {
    var n := |times| - 1;
    if !(lo <= times[n] <= hi) {
      i := ClosedHasStretch(times[..n], k, lo, hi);
    } else if k == 0 {
      i := n;
    } else {
      i := ClosedHasStretch(times[..n], k - 1, lo, hi);
    }
  }

  /** The closed interval as long as the window that starts here holds no more than the limit. */
  predicate ClosedHolds(times: seq<real>, limit: Limit, start: real) {
    CountClosed(times, start, start + limit.window) <= limit.maxRequests
  }

  /** The i-th pass and the one as many places later as the limit allows are exactly one window apart. */
  predicate OneWindowApart(times: seq<real>, limit: Limit, i: nat) {
    i + limit.maxRequests < |times| && times[i + limit.maxRequests] == times[i] + limit.window
  }

  /** Sorted times that no half-open window overflows. */
  ghost predicate Limited(times: seq<real>, limit: Limit) {
    Sorted(times) && forall start :: WindowHolds(times, limit, start)
  }

  /** More passes than the limit allows never fit into less than a window. */
  lemma PassesSpanWindow(times: seq<real>, limit: Limit, i: nat)
    requires Limited(times, limit) && i + limit.maxRequests < |times|
    ensures times[i + limit.maxRequests] >= times[i] + limit.window
  {
    var last := times[i + limit.maxRequests];
    if last < times[i] + limit.window {
      assert WindowHolds(times, limit, last - limit.window);
      StretchInHalfOpen(times, i, i + limit.maxRequests, last - limit.window, last);
    }
  }

  lemma LimitedClosedIff(times: seq<real>, limit: Limit)
    requires Limited(times, limit)
    ensures (forall start :: ClosedHolds(times, limit, start)) <==> (forall i: nat :: !OneWindowApart(times, limit, i))
  {
    forall i: nat | OneWindowApart(times, limit, i) ensures !ClosedHolds(times, limit, times[i]) {
      StretchInClosed(times, i, i + limit.maxRequests, times[i], times[i] + limit.window);
    }
    forall start | !ClosedHolds(times, limit, start) ensures exists i: nat :: OneWindowApart(times, limit, i) {
      var i := ClosedHasStretch(times, limit.maxRequests, start, start + limit.window);
      PassesSpanWindow(times, limit, i);
      assert OneWindowApart(times, limit, i);
    }
  }

  /**
   Closed intervals as long as the window respect the limit too, exactly when no two passes that
   stand maxRequests places apart are exactly one window apart.
   */
  lemma ClosedIntervalsHoldIff(arrivals: seq<Arrival>, key: string, limit: Limit)
    requires Monotonic(arrivals) && BucketHasLimit(arrivals, key, limit)
    ensures var times := PassTimes(arrivals, IdealDecisions(arrivals), key);
      (forall start :: ClosedHolds(times, limit, start)) <==> (forall i: nat :: !OneWindowApart(times, limit, i))
  {
    var times := PassTimes(arrivals, IdealDecisions(arrivals), key);
    PassTimesSorted(arrivals, IdealDecisions(arrivals), key);
    forall start ensures WindowHolds(times, limit, start) {
      NoWindowOverflows(arrivals, key, limit, start);
    }
    LimitedClosedIff(times, limit);
  }

  /** The bucket of a single arrival that passes. */
  lemma FirstArrival(a: Arrival)
    requires a.limit.maxRequests > 0
    ensures StoreAfter([a]) == map[a.key := [a.now]] && Decisions([a]) == [true]
    ensures PassTimes([a], [true], a.key) == [a.now]
  {
    assert [a][..0] == [] && [true][..0] == [];
    assert Kept(map[], a) == [];
    assert Pushed([], a.now, true) == [a.now];
  }

  /** A second arrival of the bucket, exactly one window later, passes because the first has left the window. */
  lemma SecondArrival(a: Arrival, b: Arrival)
    requires a.limit.maxRequests > 0 && b == a.(now := a.now + a.limit.window)
    ensures PassTimes([a, b], Decisions([a, b]), a.key) == [a.now, b.now]
  {
    assert [a] + [b] == [a, b] && [true] + [true] == [true, true];
    FirstArrival(a);
    ServeAppend([a], b);
    AfterAppend([], a.now, a.now);
    assert [] + [a.now] == [a.now];
    assert Kept(StoreAfter([a]), b) == [];
    PassTimesAppend([a], b, [true], true, a.key);
    assert [a.now] + [b.now] == [a.now, b.now];
  }

  /** Two passes exactly one window apart under a limit of one: a closed interval can hold more than the limit. */
  lemma ClosedIntervalMayHoldMore()
    ensures exists arrivals, limit: Limit ::
      && Monotonic(arrivals) && BucketHasLimit(arrivals, "k", limit) && limit.maxRequests == 1
      && PassTimes(arrivals, Decisions(arrivals), "k") == [0.0, limit.window]
  {
    var limit := Limit(1, 60.0);
    var a, b := Arrival("k", limit, 0.0), Arrival("k", limit, 60.0);
    SecondArrival(a, b);
    assert Monotonic([a, b]) && BucketHasLimit([a, b], "k", limit);
  }

  // ----- buckets -----

  /** The arrivals of one bucket, in order. */
  function Project(arrivals: seq<Arrival>, key: string): seq<Arrival> {
    if arrivals == [] then []
    else
      var n := |arrivals| - 1;
      var init := Project(arrivals[..n], key);
      if arrivals[n].key == key then init + [arrivals[n]] else init
  }

  /** The decisions taken for the arrivals of one bucket, in order. */
  function DecisionsFor(arrivals: seq<Arrival>, passed: seq<bool>, key: string): seq<bool>
    requires |passed| == |arrivals|
  {
    if arrivals == [] then []
    else
      var n := |arrivals| - 1;
      var init := DecisionsFor(arrivals[..n], passed[..n], key);
      if arrivals[n].key == key then init + [passed[n]] else init
  }

  lemma {:induction false} ProjectAppend(init: seq<Arrival>, a: Arrival, key: string)
    ensures Project(init + [a], key) == if a.key == key then Project(init, key) + [a] else Project(init, key)
  {
    assert (init + [a])[..|init|] == init;
  }

  lemma {:induction false} DecisionsForAppend(init: seq<Arrival>, a: Arrival, passed: seq<bool>, ok: bool, key: string)
    requires |passed| == |init|
    ensures DecisionsFor(init + [a], passed + [ok], key)
         == if a.key == key then DecisionsFor(init, passed, key) + [ok] else DecisionsFor(init, passed, key)
  {
    assert (init + [a])[..|init|] == init && (passed + [ok])[..|init|] == passed;
  }

  /** The bucket's decisions and times are those of serving its own arrivals alone. */
  predicate DecidedAlone(arrivals: seq<Arrival>, key: string) {
    && DecisionsFor(arrivals, Decisions(arrivals), key) == Decisions(Project(arrivals, key))
    && Bucket(StoreAfter(arrivals), key) == Bucket(StoreAfter(Project(arrivals, key)), key)
  }

  lemma {:induction false} ServingKeepsAlone(init: seq<Arrival>, a: Arrival, key: string)
    requires DecidedAlone(init, key)
    ensures DecidedAlone(init + [a], key)
  {
    ServeAppend(init, a);
    ProjectAppend(init, a, key);
    DecisionsForAppend(init, a, Decisions(init), Passes(StoreAfter(init), a), key);
    if a.key == key {
      ServeAppend(Project(init, key), a);
    }
  }

  lemma {:induction false} AloneAtStart(key: string)
    ensures DecidedAlone([], key)
  {
  }

  /** In any interleaving, a bucket is decided as if its own arrivals came alone. */
  lemma {:induction false} BucketsAreIndependent(arrivals: seq<Arrival>, key: string)
    ensures DecidedAlone(arrivals, key)
    decreases |arrivals|
  {
    if arrivals == [] {
      AloneAtStart(key);
    } else {
      var init, a := arrivals[..|arrivals| - 1], arrivals[|arrivals| - 1];
      assert arrivals == init + [a];
      BucketsAreIndependent(init, key);
      ServingKeepsAlone(init, a, key);
    }
  }
}
