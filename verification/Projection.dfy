/** Projection of the clearing day from the daily totals of the last days. Rates are exact. */
module Projection {
  import opened Common

  datatype Outcome =
    | NoData
    | NotDecreasing(dailyReduction: real)
    | Clearing(daysToClear: int, daysToResolution: Option<int>, timeline: seq<real>, dailyReduction: real)

  /** Python's `int(x)`: truncation toward zero. */
  function Trunc(x: real): int {
    if x >= 0.0 then x.Floor else -((-x).Floor)
  }

  function Max(a: real, b: real): real {
    if a > b then a else b
  }

  /** Average fall per recorded day. */
  function DailyReduction(totals: seq<real>): real
    requires totals != []
  {
    (totals[0] - totals[|totals| - 1]) / |totals| as real
  }

  function DaysToClear(current: real, rate: real): int
    requires rate > 0.0
  {
    Trunc(current / rate)
  }

  function Projected(current: real, rate: real, day: int): real {
    Max(0.0, current - rate * day as real)
  }

  /** Length of the timeline as coded: zero days to clear is falsy and falls back to the whole horizon. */
  function Horizon(days: int, daysAhead: int): int {
    var wanted := if days != 0 then days + 1 else daysAhead;
    if daysAhead < wanted then daysAhead else wanted
  }

  method ProjectResolution(totals: seq<real>, daysAhead: int) returns (r: Outcome)
    ensures r.NoData? <==> totals == []
    ensures r.NotDecreasing? ==> r.dailyReduction == DailyReduction(totals) <= 0.0
    ensures totals != [] ==> r.dailyReduction * |totals| as real == totals[0] - totals[|totals| - 1]
    ensures r.Clearing? ==>
      var current, rate := totals[|totals| - 1], DailyReduction(totals);
      && r.dailyReduction == rate > 0.0
      && r.daysToClear == DaysToClear(current, rate)
      && r.daysToResolution == (if r.daysToClear > daysAhead then None else Some(r.daysToClear))
      && |r.timeline| == (if Horizon(r.daysToClear, daysAhead) > 0 then Horizon(r.daysToClear, daysAhead) else 0)
      && forall day :: 0 <= day < |r.timeline| ==> r.timeline[day] == Projected(current, rate, day)
  {
    if totals == [] {
      return NoData;
    }
    var current := totals[|totals| - 1];
    var previous := totals[0];
    var rate := (previous - current) / |totals| as real;
    if rate <= 0.0 {
      return NotDecreasing(rate);
    }
    var days := Trunc(current / rate);
    var remaining := if days > daysAhead then None else Some(days);
    var timeline: seq<real> := [];
    var day := 0;
    while day < Horizon(days, daysAhead)
      invariant 0 <= day && |timeline| == day && (day <= Horizon(days, daysAhead) || day == 0)
      invariant forall d :: 0 <= d < day ==> timeline[d] == Projected(current, rate, d)
    {
      timeline := timeline + [Projected(current, rate, day)];
      day := day + 1;
    }
    r := Clearing(days, remaining, timeline, rate);
  }

  lemma ProductPositive(a: real, b: real)
    requires a > 0.0 && b > 0.0
    ensures a * b > 0.0
  {
  }

  lemma PartOfRate(part: real, rate: real) returns (rest: real)
    requires 0.0 <= part < 1.0 && rate > 0.0
    ensures rest == part * rate && 0.0 <= rest < rate
  {
    rest := part * rate;
    var other := (1.0 - part) * rate;
    ProductPositive(1.0 - part, rate);
    assert rest + other == rate;
  }

  lemma QuotientParts(x: real, rate: real, d: real)
    requires rate > 0.0
    ensures x - rate * d == (x / rate - d) * rate
  {
  }

  /** A quotient's floor leaves less than one divisor. */
  lemma FloorRemainder(x: real, rate: real)
    requires rate > 0.0
    ensures 0.0 <= x - rate * (x / rate).Floor as real < rate
  {
    var d := (x / rate).Floor as real;
    var rest := PartOfRate(x / rate - d, rate);
    QuotientParts(x, rate, d);
  }

  /** Less than one day's reduction is left on the clearing day; a negative exposure lacks less than one day's. */
  lemma RemainderOnClearingDay(current: real, rate: real)
    requires rate > 0.0
    ensures var rest := current - rate * DaysToClear(current, rate) as real;
      if current >= 0.0 then 0.0 <= rest < rate else -rate < rest <= 0.0
  {
    if current >= 0.0 {
      FloorRemainder(current, rate);
      assert current / rate >= 0.0;
    } else {
      FloorRemainder(-current, rate);
      assert (-current) / rate == -(current / rate);
      assert current / rate < 0.0;
      var d := (-(current / rate)).Floor;
      assert DaysToClear(current, rate) == -d;
      assert rate * (-d) as real == -(rate * d as real);
    }
  }

  lemma MultiplesSubtract(rate: real, a: int, b: int)
    ensures rate * b as real - rate * a as real == rate * (b - a) as real
  {
    assert (b - a) as real == b as real - a as real;
  }

  lemma ProductNotNegative(a: real, b: real)
    requires a > 0.0 && b >= 0.0
    ensures a * b >= 0.0
  {
  }

  /** Multiples of a positive rate are ordered as their factors. */
  lemma MultiplesOrdered(rate: real, a: int, b: int)
    requires rate > 0.0 && a <= b
    ensures rate * a as real <= rate * b as real
  {
    ProductNotNegative(rate, (b - a) as real);
    MultiplesSubtract(rate, a, b);
  }

  lemma NextMultiple(rate: real, a: int)
    ensures rate * (a + 1) as real == rate * a as real + rate
  {
    assert (a + 1) as real == a as real + 1.0;
  }

  lemma StillAbove(x: real, far: real, near: real)
    requires x - far >= 0.0 && near <= far
    ensures x - near >= 0.0
  {
  }

  lemma NowBelow(x: real, near: real, step: real, far: real)
    requires x - near < step && far == near + step
    ensures x - far < 0.0
  {
  }

  lemma StaysBelow(x: real, near: real, far: real)
    requires x - near < 0.0 && near <= far
    ensures x - far < 0.0
  {
  }

  lemma LeftGiven(current: real, rate: real, clearing: int, day: int)
    requires rate > 0.0 && 0.0 <= current - rate * clearing as real && current - rate * clearing as real < rate
    ensures day <= clearing ==> current - rate * day as real >= 0.0
    ensures day > clearing ==> current - rate * day as real < 0.0
  {
    if day <= clearing {
      MultiplesOrdered(rate, day, clearing);
      StillAbove(current, rate * clearing as real, rate * day as real);
    } else {
      NextMultiple(rate, clearing);
      NowBelow(current, rate * clearing as real, rate, rate * (clearing + 1) as real);
      MultiplesOrdered(rate, clearing + 1, day);
      StaysBelow(current, rate * (clearing + 1) as real, rate * day as real);
    }
  }

  /** Before the clearing day something is left; after it nothing is. */
  lemma LeftOnDay(current: real, rate: real, day: int)
    requires rate > 0.0 && current >= 0.0
    ensures day <= DaysToClear(current, rate) ==> current - rate * day as real >= 0.0
    ensures day > DaysToClear(current, rate) ==> current - rate * day as real < 0.0
  {
    RemainderOnClearingDay(current, rate);
    LeftGiven(current, rate, DaysToClear(current, rate), day);
  }

  /** The same with the multiples as plain numbers. */
  lemma {:induction false} FallBetween(x: real, near: real, far: real)
    requires near <= far
    ensures 0.0 <= Max(0.0, x - far) <= Max(0.0, x - near)
    ensures x - far >= 0.0 ==> Max(0.0, x - near) == Max(0.0, x - far) + (far - near)
  {
  }

  lemma {:induction false} TwoMultiples(rate: real, day: int, later: int) returns (near: real, far: real)
    requires rate > 0.0 && day <= later
    ensures near == rate * day as real && far == rate * later as real
    ensures near <= far && far - near == rate * (later - day) as real
  {
    near, far := rate * day as real, rate * later as real;
    MultiplesOrdered(rate, day, later);
    MultiplesSubtract(rate, day, later);
  }

  /** The projection never goes below zero or up, and falls by exactly the daily rate until the clearing day. */
  lemma {:induction false} TimelineFalls(current: real, rate: real, day: int, later: int)
    requires rate > 0.0 && day <= later
    ensures 0.0 <= Projected(current, rate, later) <= Projected(current, rate, day)
    ensures current >= 0.0 && later <= DaysToClear(current, rate) ==>
      Projected(current, rate, day) == Projected(current, rate, later) + rate * (later - day) as real
  {
    var near, far := TwoMultiples(rate, day, later);
    FallBetween(current, near, far);
    if current >= 0.0 {
      LeftOnDay(current, rate, later);
    }
  }

  lemma {:induction false} ProjectedGiven(x: real, far: real)
    ensures Max(0.0, x - far) == 0.0 <==> x - far <= 0.0
  {
  }

  /**
   The timeline is zero exactly after the clearing day, already on it when nothing is left, and
   all along when the exposure is negative.
   */
  lemma {:induction false} ZeroExactlyAfterClearing(current: real, rate: real, day: int)
    requires rate > 0.0 && day >= 0
    ensures Projected(current, rate, day) == 0.0 <==>
      current < 0.0 || day > DaysToClear(current, rate) || current == rate * day as real
  {
    ProjectedGiven(current, rate * day as real);
    if current >= 0.0 {
      LeftOnDay(current, rate, day);
    } else {
      ProductNotNegative(rate, day as real);
    }
  }

  /** The timeline starts with the exposure itself. */
  lemma StartsAtCurrent(current: real, rate: real)
    requires current >= 0.0
    ensures Projected(current, rate, 0) == current
  {
  }

  /** The clearing day, which is negative for a negative exposure, has a place on the timeline. */
  predicate OnTimeline(days: int, daysAhead: int) {
    0 <= days < Horizon(days, daysAhead)
  }

  /**
   The clearing day lies on the timeline exactly when it is not in the past and comes before the
   end of the horizon: at a clearing day equal to the horizon its date is given but the list stops
   the day before.
   */
  lemma ReportedDayOnTimeline(days: int, daysAhead: int)
    ensures OnTimeline(days, daysAhead) <==> 0 <= days < daysAhead
    ensures Horizon(days, daysAhead) == if days == 0 || days >= daysAhead then daysAhead else days + 1
  {
  }
}
