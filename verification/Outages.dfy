/**
 Outage detection: transactions are counted per hour, the observed hours are sorted, and one
 pass over them collects runs of hours without a success. Hours are numbered from the epoch.
 "Consecutive" means adjacent among the observed hours: hours without any transaction are not seen.
 */
module Outages {
  import opened Common
  import opened GroupedSums
  import opened Sorting

  /** A transaction's creation time in seconds, and whether its status is success. */
  datatype Tx = Tx(createdAt: int, success: bool)

  datatype Tally = Tally(total: int, success: int)

  datatype Window = Window(start: int, end: int, durationHours: int)

  datatype Run = Run(start: int, end: int)

  function HourOf(tx: Tx): int {
    tx.createdAt / 3600
  }

  function SuccessOf(tx: Tx): int {
    if tx.success then 1 else 0
  }

  // ----- what an outage is -----

  function Observed(txs: seq<Tx>): set<int> {
    set i | 0 <= i < |txs| :: HourOf(txs[i])
  }

  /** The observed hours in which no transaction succeeded. */
  function DeadHours(txs: seq<Tx>): set<int> {
    set h | h in Observed(txs) && forall i :: 0 <= i < |txs| && HourOf(txs[i]) == h ==> !txs[i].success
  }

  /** Every observed hour from a to b, both observed, is dead. */
  predicate DeadRun(obs: set<int>, dead: set<int>, a: int, b: int) {
    a in obs && b in obs && a <= b && forall h :: h in obs && a <= h <= b ==> h in dead
  }

  /** A dead run that can be extended neither to an earlier nor to a later observed hour. */
  predicate MaximalRun(obs: set<int>, dead: set<int>, a: int, b: int) {
    && DeadRun(obs, dead, a, b)
    && (forall p :: p in obs && p < a ==> !DeadRun(obs, dead, p, b))
    && (forall q :: q in obs && b < q ==> !DeadRun(obs, dead, a, q))
  }

  predicate IsOutage(obs: set<int>, dead: set<int>, w: Window) {
    MaximalRun(obs, dead, w.start, w.end) && w.durationHours == w.end - w.start >= 1
  }

  predicate Ordered(windows: seq<Window>) {
    forall i, j :: 0 <= i < j < |windows| ==> windows[i].end < windows[j].start
  }

  // ----- the pass over the hours -----

  datatype Scan = Scan(windows: seq<Window>, current: Option<Run>)

  /** Reports the run if it spans at least one hour. */
  function Close(scan: Scan): seq<Window> {
    match scan.current
    case None => scan.windows
    case Some(run) =>
      if run.end - run.start >= 1 then scan.windows + [Window(run.start, run.end, run.end - run.start)]
      else scan.windows
  }

  function Visit(scan: Scan, hour: int, isDead: bool): Scan {
    if isDead then
      Scan(scan.windows, Some(Run(if scan.current.Some? then scan.current.value.start else hour, hour)))
    else Scan(Close(scan), None)
  }

  function Visited(hours: seq<int>, dead: set<int>): Scan {
    if hours == [] then Scan([], None)
    else Visit(Visited(hours[..|hours| - 1], dead), hours[|hours| - 1], hours[|hours| - 1] in dead)
  }

  lemma VisitedAppend(hours: seq<int>, hour: int, dead: set<int>)
    ensures Visited(hours + [hour], dead) == Visit(Visited(hours, dead), hour, hour in dead)
  {
    assert (hours + [hour])[..|hours|] == hours;
  }

  /** The outages of the observed and dead hours. */
  function Detected(obs: set<int>, dead: set<int>): seq<Window> {
    Close(Visited(Sorted(obs), dead))
  }

  // ----- the program -----

  function TallyOf(txs: seq<Tx>, h: int): Tally {
    Tally(TotalFor(txs, HourOf, One, h), TotalFor(txs, HourOf, SuccessOf, h))
  }

  function Tallies(txs: seq<Tx>): map<int, Tally> {
    map h | h in Observed(txs) :: TallyOf(txs, h)
  }

  lemma ObservedAppend(txs: seq<Tx>, tx: Tx)
    ensures Observed(txs + [tx]) == Observed(txs) + {HourOf(tx)}
  {
    var all := txs + [tx];
    assert all[|txs|] == tx;
    assert forall i :: 0 <= i < |txs| ==> all[i] == txs[i];
  }

  lemma {:induction false} Unobserved(txs: seq<Tx>, h: int)
    requires h !in Observed(txs)
    ensures TotalFor(txs, HourOf, One, h) == 0 && TotalFor(txs, HourOf, SuccessOf, h) == 0
  {
    if txs == [] {
    } else {
      var n := |txs| - 1;
      assert HourOf(txs[n]) in Observed(txs);
      assert forall i :: 0 <= i < n ==> txs[..n][i] == txs[i] && HourOf(txs[i]) in Observed(txs);
      Unobserved(txs[..n], h);
    }
  }

  /** The buckets with one transaction more. */
  function WithTx(hourly: map<int, Tally>, tx: Tx): map<int, Tally> {
    var h := HourOf(tx);
    var before := if h in hourly then hourly[h] else Tally(0, 0);
    hourly[h := Tally(before.total + 1, before.success + SuccessOf(tx))]
  }

  lemma {:induction false} TallyAppend(txs: seq<Tx>, tx: Tx, h: int)
    ensures var before := if h in Observed(txs) then TallyOf(txs, h) else Tally(0, 0);
      TallyOf(txs + [tx], h)
        == if h == HourOf(tx) then Tally(before.total + 1, before.success + SuccessOf(tx)) else before
  {
    TotalForAppend(txs, tx, HourOf, One, h);
    TotalForAppend(txs, tx, HourOf, SuccessOf, h);
    if h !in Observed(txs) {
      Unobserved(txs, h);
    }
  }

  lemma {:induction false} TalliesAppend(txs: seq<Tx>, tx: Tx)
    ensures Tallies(txs + [tx]) == WithTx(Tallies(txs), tx)
  {
    ObservedAppend(txs, tx);
    forall h | h in Observed(txs + [tx]) ensures Tallies(txs + [tx])[h] == WithTx(Tallies(txs), tx)[h] {
      TallyAppend(txs, tx, h);
    }
  }

  /** An observed hour is dead exactly when its bucket counted no success; its total is positive. */
  lemma {:induction false} DeadIsZeroSuccess(txs: seq<Tx>, h: int)
    ensures TotalFor(txs, HourOf, SuccessOf, h) >= 0
    ensures TotalFor(txs, HourOf, One, h) >= if h in Observed(txs) then 1 else 0
    ensures TotalFor(txs, HourOf, SuccessOf, h) == 0
        <==> forall i :: 0 <= i < |txs| && HourOf(txs[i]) == h ==> !txs[i].success
  {
    if txs == [] {
    } else {
      var n := |txs| - 1;
      var init := txs[..n];
      DeadIsZeroSuccess(init, h);
      assert forall i :: 0 <= i < n ==> init[i] == txs[i];
      assert h in Observed(txs) ==> h in Observed(init) || HourOf(txs[n]) == h;
    }
  }

  /** The body of the bucketing loop. */
  method AddTransaction(hourly: map<int, Tally>, tx: Tx) returns (r: map<int, Tally>)
    ensures r == WithTx(hourly, tx)
  {
    r := hourly;
    var hour := HourOf(tx);
    if hour !in r {
      r := r[hour := Tally(0, 0)];
    }
    r := r[hour := Tally(r[hour].total + 1, r[hour].success)];
    if tx.success {
      r := r[hour := Tally(r[hour].total, r[hour].success + 1)];
    }
  }

  method CountByHour(txs: seq<Tx>) returns (hourly: map<int, Tally>)
    ensures hourly == Tallies(txs)
  {
    hourly := map[];
    var i := 0;
    assert Observed(txs[..i]) == {};
    assert Tallies(txs[..i]).Keys == {};
    while i < |txs|
      invariant 0 <= i <= |txs|
      invariant hourly == Tallies(txs[..i])
    {
      assert txs[..i + 1] == txs[..i] + [txs[i]];
      TalliesAppend(txs[..i], txs[i]);
      hourly := AddTransaction(hourly, txs[i]);
      i := i + 1;
    }
    assert txs[..i] == txs;
  }

  /** The body of the loop over the sorted hours. */
  method VisitHour(windows: seq<Window>, current: Option<Run>, hour: int, data: Tally)
    returns (windows': seq<Window>, current': Option<Run>)
    ensures Scan(windows', current') == Visit(Scan(windows, current), hour, data.success == 0 && data.total > 0)
  {
    windows', current' := windows, current;
    if data.success == 0 && data.total > 0 {
      if current.None? {
        current' := Some(Run(hour, hour));
      } else {
        current' := Some(Run(current.value.start, hour));
      }
    } else {
      if current.Some? {
        var duration := current.value.end - current.value.start;
        if duration >= 1 {
          windows' := windows + [Window(current.value.start, current.value.end, duration)];
        }
        current' := None;
      }
    }
  }

  method FindWindows(hours: seq<int>, hourly: map<int, Tally>, ghost dead: set<int>) returns (windows: seq<Window>)
    requires forall i :: 0 <= i < |hours| ==>
      hours[i] in hourly && (hours[i] in dead <==> hourly[hours[i]].success == 0 && hourly[hours[i]].total > 0)
    ensures windows == Close(Visited(hours, dead))
  {
    windows := [];
    var current: Option<Run> := None;
    var i := 0;
    while i < |hours|
      invariant 0 <= i <= |hours|
      invariant Scan(windows, current) == Visited(hours[..i], dead)
    {
      assert hours[..i + 1] == hours[..i] + [hours[i]];
      VisitedAppend(hours[..i], hours[i], dead);
      windows, current := VisitHour(windows, current, hours[i], hourly[hours[i]]);
      i := i + 1;
    }
    assert hours[..i] == hours;
    if current.Some? {
      var duration := current.value.end - current.value.start;
      if duration >= 1 {
        windows := windows + [Window(current.value.start, current.value.end, duration)];
      }
    }
  }

  method DetectOutageWindows(txs: seq<Tx>) returns (windows: seq<Window>)
    ensures windows == Detected(Observed(txs), DeadHours(txs))
  {
    var hourly := CountByHour(txs);
    assert hourly.Keys == Observed(txs);
    var hours := Sorted(hourly.Keys);
    forall i | 0 <= i < |hours|
      ensures hours[i] in hourly
      ensures hours[i] in DeadHours(txs) <==> hourly[hours[i]].success == 0 && hourly[hours[i]].total > 0
    {
      assert hours[i] in hours;
      DeadIsZeroSuccess(txs, hours[i]);
    }
    windows := FindWindows(hours, hourly, DeadHours(txs));
  }

  // ----- the pass is exact -----

  /** Every observed hour from a on is dead, so the run from a reaches the last hour seen. */
  predicate Suffix(seen: set<int>, dead: set<int>, a: int) {
    a in seen && forall h :: h in seen && a <= h ==> h in dead
  }

  predicate AllBefore(seen: set<int>, hour: int) {
    forall h :: h in seen ==> h < hour
  }

  ghost predicate OpenRun(seen: set<int>, dead: set<int>, run: Run) {
    && Suffix(seen, dead, run.start) && run.end in seen
    && (forall h :: h in seen ==> h <= run.end)
    && (forall a :: a in seen && Suffix(seen, dead, a) ==> run.start <= a)
  }

  /** What the pass knows: the outages that ended, and the earliest start of the run still open. */
  ghost predicate ScanInv(seen: set<int>, dead: set<int>, scan: Scan) {
    && (forall w :: w in scan.windows <==> IsOutage(seen, dead, w) && !Suffix(seen, dead, w.start))
    && Ordered(scan.windows)
    && (scan.current.None? ==> forall a :: a in seen ==> !Suffix(seen, dead, a))
    && (scan.current.Some? ==> OpenRun(seen, dead, scan.current.value))
    && (scan.current.Some? ==> forall i :: 0 <= i < |scan.windows| ==> scan.windows[i].end < scan.current.value.start)
  }

  /** A later hour does not change which earlier stretches are dead. */
  lemma DeadRunFrame(seen: set<int>, dead: set<int>, hour: int, a: int, b: int)
    requires AllBefore(seen, hour) && b < hour
    ensures DeadRun(seen + {hour}, dead, a, b) <==> DeadRun(seen, dead, a, b)
  {
    if DeadRun(seen, dead, a, b) {
      assert forall h :: h in seen + {hour} && a <= h <= b ==> h in seen;
    }
  }

  lemma DeadRunToNew(seen: set<int>, dead: set<int>, hour: int, a: int)
    requires AllBefore(seen, hour) && a in seen
    ensures DeadRun(seen + {hour}, dead, a, hour) <==> hour in dead && Suffix(seen, dead, a)
  {
    var more := seen + {hour};
    if DeadRun(more, dead, a, hour) {
      assert hour in more && a <= hour <= hour;
      assert forall h :: h in seen && a <= h ==> h in more && a <= h <= hour;
    }
  }

  /** An outage that had ended, or that the new hour ends, stays an outage; no other appears before the new hour. */
  lemma OutageFrame(seen: set<int>, dead: set<int>, hour: int, w: Window)
    requires AllBefore(seen, hour) && (hour in dead ==> !Suffix(seen, dead, w.start)) && w.end < hour
    ensures IsOutage(seen + {hour}, dead, w) <==> IsOutage(seen, dead, w)
  {
    var more := seen + {hour};
    DeadRunFrame(seen, dead, hour, w.start, w.end);
    forall p | p < w.start ensures DeadRun(more, dead, p, w.end) <==> DeadRun(seen, dead, p, w.end) {
      DeadRunFrame(seen, dead, hour, p, w.end);
    }
    forall q | q in seen ensures DeadRun(more, dead, w.start, q) <==> DeadRun(seen, dead, w.start, q) {
      DeadRunFrame(seen, dead, hour, w.start, q);
    }
    if w.start in seen {
      DeadRunToNew(seen, dead, hour, w.start);
    }
  }

  lemma VisitDeadKeeps(seen: set<int>, dead: set<int>, scan: Scan, hour: int)
    requires ScanInv(seen, dead, scan) && hour in dead && AllBefore(seen, hour)
    ensures ScanInv(seen + {hour}, dead, Visit(scan, hour, true))
  {
    var more := seen + {hour};
    forall a ensures Suffix(more, dead, a) <==> a == hour || Suffix(seen, dead, a) {
    }
    forall w ensures w in scan.windows <==> IsOutage(more, dead, w) && !Suffix(more, dead, w.start) {
      if w.end < hour && !Suffix(seen, dead, w.start) {
        OutageFrame(seen, dead, hour, w);
      } else if IsOutage(more, dead, w) && w.start in seen {
        DeadRunToNew(seen, dead, hour, w.start);
      }
    }
  }

  /** The open run is the one outage, if any, that reaches the last hour seen. */
  lemma OpenRunIsOutage(seen: set<int>, dead: set<int>, run: Run, w: Window)
    requires OpenRun(seen, dead, run)
    ensures IsOutage(seen, dead, w) && Suffix(seen, dead, w.start)
        <==> run.end - run.start >= 1 && w == Window(run.start, run.end, run.end - run.start)
  {
    assert DeadRun(seen, dead, run.start, run.end);
    forall p | p in seen && p < run.start ensures !DeadRun(seen, dead, p, run.end) {
      assert DeadRun(seen, dead, p, run.end) ==> Suffix(seen, dead, p);
    }
    if IsOutage(seen, dead, w) && Suffix(seen, dead, w.start) {
      assert DeadRun(seen, dead, w.start, run.end);
      assert w.end == run.end;
      assert w.start == run.start;
    }
  }

  lemma {:induction false} ClosedIsOutage(seen: set<int>, dead: set<int>, scan: Scan, w: Window)
    requires ScanInv(seen, dead, scan) && w in Close(scan)
    ensures IsOutage(seen, dead, w)
  {
    if w !in scan.windows {
      OpenRunIsOutage(seen, dead, scan.current.value, w);
    }
  }

  lemma {:induction false} CloseKeeps(scan: Scan, w: Window)
    requires w in scan.windows
    ensures w in Close(scan)
  {
  }

  lemma {:induction false} OpenRunIsClosed(scan: Scan, run: Run)
    requires scan.current == Some(run) && run.end - run.start >= 1
    ensures Window(run.start, run.end, run.end - run.start) in Close(scan)
  {
  }

  lemma {:induction false} OutageIsClosed(seen: set<int>, dead: set<int>, scan: Scan, w: Window)
    requires ScanInv(seen, dead, scan) && IsOutage(seen, dead, w)
    ensures w in Close(scan)
  {
    if Suffix(seen, dead, w.start) {
      OpenRunIsOutage(seen, dead, scan.current.value, w);
      OpenRunIsClosed(scan, scan.current.value);
    } else {
      CloseKeeps(scan, w);
    }
  }

  lemma {:induction false} ClosedIff(seen: set<int>, dead: set<int>, scan: Scan, w: Window)
    requires ScanInv(seen, dead, scan)
    ensures w in Close(scan) <==> IsOutage(seen, dead, w)
  {
    if w in Close(scan) {
      ClosedIsOutage(seen, dead, scan, w);
    } else if IsOutage(seen, dead, w) {
      OutageIsClosed(seen, dead, scan, w);
    }
  }

  lemma {:induction false} CloseIsOrdered(scan: Scan)
    requires Ordered(scan.windows)
    requires scan.current.Some? ==> forall i :: 0 <= i < |scan.windows| ==> scan.windows[i].end < scan.current.value.start
    ensures Ordered(Close(scan))
  {
  }

  lemma {:induction false} CloseIsExact(seen: set<int>, dead: set<int>, scan: Scan)
    requires ScanInv(seen, dead, scan)
    ensures forall w :: w in Close(scan) <==> IsOutage(seen, dead, w)
    ensures Ordered(Close(scan))
  {
    CloseIsOrdered(scan);
    forall w ensures w in Close(scan) <==> IsOutage(seen, dead, w) {
      ClosedIff(seen, dead, scan, w);
    }
  }

  lemma VisitAliveKeeps(seen: set<int>, dead: set<int>, scan: Scan, hour: int)
    requires ScanInv(seen, dead, scan) && hour !in dead && AllBefore(seen, hour)
    ensures ScanInv(seen + {hour}, dead, Visit(scan, hour, false))
  {
    var more := seen + {hour};
    CloseIsExact(seen, dead, scan);
    forall a ensures !Suffix(more, dead, a) {
      assert hour in more;
    }
    forall w ensures w in Close(scan) <==> IsOutage(more, dead, w) && !Suffix(more, dead, w.start) {
      if w.end < hour {
        OutageFrame(seen, dead, hour, w);
      } else {
        assert !DeadRun(more, dead, w.start, w.end);
      }
    }
  }

  lemma {:induction false} VisitKeeps(seen: set<int>, dead: set<int>, scan: Scan, hour: int)
    requires ScanInv(seen, dead, scan) && AllBefore(seen, hour)
    ensures ScanInv(seen + {hour}, dead, Visit(scan, hour, hour in dead))
  {
    if hour in dead {
      VisitDeadKeeps(seen, dead, scan, hour);
    } else {
      VisitAliveKeeps(seen, dead, scan, hour);
    }
  }

  function HourSet(hours: seq<int>): set<int> {
    set h | h in hours
  }

  lemma {:induction false} LastHour(hours: seq<int>)
    requires Ascending(hours) && hours != []
    ensures var init, last := hours[..|hours| - 1], hours[|hours| - 1];
      Ascending(init) && HourSet(hours) == HourSet(init) + {last} && AllBefore(HourSet(init), last)
  {
    assert hours == hours[..|hours| - 1] + [hours[|hours| - 1]];
  }

  lemma {:induction false} NothingSeen(dead: set<int>)
    ensures ScanInv({}, dead, Scan([], None))
  {
    assert forall w :: !IsOutage({}, dead, w);
  }

  lemma {:induction false} PassInv(hours: seq<int>, dead: set<int>)
    requires Ascending(hours)
    ensures ScanInv(HourSet(hours), dead, Visited(hours, dead))
  {
    if hours == [] {
      NothingSeen(dead);
      assert HourSet(hours) == {};
    } else {
      var init, hour := hours[..|hours| - 1], hours[|hours| - 1];
      LastHour(hours);
      PassInv(init, dead);
      VisitKeeps(HourSet(init), dead, Visited(init, dead), hour);
    }
  }

  // ----- main results -----

  /**
   The reported windows are exactly the maximal runs of dead observed hours that span at least
   one hour, in ascending order and disjoint.
   */
  lemma DetectionIsExact(obs: set<int>, dead: set<int>)
    ensures forall w :: w in Detected(obs, dead) <==> IsOutage(obs, dead, w)
    ensures Ordered(Detected(obs, dead))
  {
    PassInv(Sorted(obs), dead);
    assert HourSet(Sorted(obs)) == obs;
    CloseIsExact(obs, dead, Visited(Sorted(obs), dead));
  }

  /** The transaction was created within the hour. */
  predicate InHour(tx: Tx, h: int) {
    3600 * h <= tx.createdAt < 3600 * h + 3600
  }

  lemma HourIff(tx: Tx, h: int)
    ensures HourOf(tx) == h <==> InHour(tx, h)
  {
  }

  /**
   An hour is observed exactly when a transaction was created within it, and dead exactly when,
   besides, none of those succeeded.
   */
  lemma {:induction false} HoursInSeconds(txs: seq<Tx>, h: int)
    ensures h in Observed(txs) <==> exists i :: 0 <= i < |txs| && InHour(txs[i], h)
    ensures h in DeadHours(txs)
       <==> h in Observed(txs) && forall i :: 0 <= i < |txs| && InHour(txs[i], h) ==> !txs[i].success
  {
    forall i | 0 <= i < |txs| ensures HourOf(txs[i]) == h <==> InHour(txs[i], h) {
      HourIff(txs[i], h);
    }
  }

  predicate Covers(w: Window, h: int) {
    w.start <= h <= w.end
  }

  /** How much room there is to extend a run. */
  function Outside(obs: set<int>, a: int, b: int): set<int> {
    set h | h in obs && (h < a || b < h)
  }

  /** Every dead run lies in a maximal one. */
  lemma {:induction false} Extend(obs: set<int>, dead: set<int>, a: int, b: int)
    requires DeadRun(obs, dead, a, b)
    ensures exists a', b' :: a' <= a && b <= b' && MaximalRun(obs, dead, a', b')
    decreases Outside(obs, a, b)
  {
    if p :| p in obs && p < a && DeadRun(obs, dead, p, b) {
      assert p in Outside(obs, a, b) && p !in Outside(obs, p, b) && Outside(obs, p, b) <= Outside(obs, a, b);
      Extend(obs, dead, p, b);
      var a', b' :| a' <= p && b <= b' && MaximalRun(obs, dead, a', b');
      assert a' <= a;
    } else if q :| q in obs && b < q && DeadRun(obs, dead, a, q) {
      assert q in Outside(obs, a, b) && q !in Outside(obs, a, q) && Outside(obs, a, q) <= Outside(obs, a, b);
      Extend(obs, dead, a, q);
      var a', b' :| a' <= a && q <= b' && MaximalRun(obs, dead, a', b');
      assert b <= b';
    } else {
      assert MaximalRun(obs, dead, a, b);
    }
  }

  /** Everything from the hour to another observed hour is dead. */
  ghost predicate RunsToAnother(obs: set<int>, dead: set<int>, h: int) {
    exists g :: g in obs && g != h && (DeadRun(obs, dead, g, h) || DeadRun(obs, dead, h, g))
  }

  lemma {:induction false} CoveredRuns(obs: set<int>, dead: set<int>, w: Window, h: int)
    requires IsOutage(obs, dead, w) && Covers(w, h) && h in obs
    ensures RunsToAnother(obs, dead, h)
  {
    var g := if h == w.start then w.end else w.start;
    assert DeadRun(obs, dead, g, h) || DeadRun(obs, dead, h, g);
  }

  lemma {:induction false} RunIsCovered(obs: set<int>, dead: set<int>, a: int, b: int) returns (w: Window)
    requires DeadRun(obs, dead, a, b) && a < b
    ensures IsOutage(obs, dead, w) && Covers(w, a) && Covers(w, b)
  {
    Extend(obs, dead, a, b);
    var a', b' :| a' <= a && b <= b' && MaximalRun(obs, dead, a', b');
    w := Window(a', b', b' - a');
  }

  /**
   An observed hour is reported exactly when it is dead and so is everything up to another
   observed hour: a dead hour whose observed neighbours both have a success is never reported.
   */
  lemma {:induction false} ReportedIff(obs: set<int>, dead: set<int>, h: int)
    requires h in obs
    ensures (exists w :: w in Detected(obs, dead) && Covers(w, h)) <==> RunsToAnother(obs, dead, h)
  {
    DetectionIsExact(obs, dead);
    if w :| w in Detected(obs, dead) && Covers(w, h) {
      CoveredRuns(obs, dead, w, h);
    }
    if g :| g in obs && g != h && (DeadRun(obs, dead, g, h) || DeadRun(obs, dead, h, g)) {
      if g < h {
        var w := RunIsCovered(obs, dead, g, h);
      } else {
        var w := RunIsCovered(obs, dead, h, g);
      }
    }
  }

  lemma SameMembers(txs: seq<Tx>, txs': seq<Tx>)
    requires multiset(txs) == multiset(txs')
    ensures Observed(txs) <= Observed(txs')
    ensures forall h :: h in Observed(txs') && h in DeadHours(txs') && h in Observed(txs) ==> h in DeadHours(txs)
  {
    forall i | 0 <= i < |txs| ensures exists j :: 0 <= j < |txs'| && txs'[j] == txs[i] {
      assert txs[i] in multiset(txs);
      assert txs[i] in multiset(txs');
    }
    forall h | h in Observed(txs) ensures h in Observed(txs') {
      var i :| 0 <= i < |txs| && HourOf(txs[i]) == h;
      var j :| 0 <= j < |txs'| && txs'[j] == txs[i];
    }
    forall h | h in DeadHours(txs') && h in Observed(txs) ensures h in DeadHours(txs) {
      forall i | 0 <= i < |txs| && HourOf(txs[i]) == h ensures !txs[i].success {
        var j :| 0 <= j < |txs'| && txs'[j] == txs[i];
      }
    }
  }

  /** The result does not depend on the order in which the transactions are read. */
  lemma OrderDoesNotMatter(txs: seq<Tx>, txs': seq<Tx>)
    requires multiset(txs) == multiset(txs')
    ensures Observed(txs) == Observed(txs') && DeadHours(txs) == DeadHours(txs')
    ensures Detected(Observed(txs), DeadHours(txs)) == Detected(Observed(txs'), DeadHours(txs'))
  {
    SameMembers(txs, txs');
    SameMembers(txs', txs);
  }

  /** The buckets of the listed hours, added up. */
  function SumTallies(hourly: map<int, Tally>, hours: seq<int>): Tally
    requires forall i :: 0 <= i < |hours| ==> hours[i] in hourly
  {
    if hours == [] then Tally(0, 0)
    else
      var init := SumTallies(hourly, hours[..|hours| - 1]);
      var last := hourly[hours[|hours| - 1]];
      Tally(init.total + last.total, init.success + last.success)
  }

  lemma {:induction false} SumTalliesIsGroups(txs: seq<Tx>, hours: seq<int>)
    requires forall i :: 0 <= i < |hours| ==> hours[i] in Tallies(txs)
    ensures SumTallies(Tallies(txs), hours)
         == Tally(TotalOfGroups(txs, HourOf, One, hours), TotalOfGroups(txs, HourOf, SuccessOf, hours))
  {
    if hours == [] {
    } else {
      SumTalliesIsGroups(txs, hours[..|hours| - 1]);
    }
  }

  /** The hourly buckets lose nothing: totals and successes add up to those of the transactions. */
  lemma BucketsConserve(txs: seq<Tx>)
    ensures SumTallies(Tallies(txs), Sorted(Tallies(txs).Keys)) == Tally(|txs|, Total(txs, SuccessOf))
  {
    var hours := Sorted(Tallies(txs).Keys);
    forall i | 0 <= i < |txs| ensures HourOf(txs[i]) in hours {
      assert HourOf(txs[i]) in Observed(txs);
    }
    PartitionTotal(txs, HourOf, One, hours);
    PartitionTotal(txs, HourOf, SuccessOf, hours);
    CountIsLength(txs);
    forall i | 0 <= i < |hours| ensures hours[i] in Tallies(txs) {
      assert hours[i] in Sorted(Tallies(txs).Keys);
    }
    SumTalliesIsGroups(txs, hours);
  }
}
