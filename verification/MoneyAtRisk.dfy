/**
 Money at risk: exposure by category and provider, the risk score, and the projection of when the
 exposure clears. Times are in seconds and amounts in minor units; averages and rates are exact.
 */
module MoneyAtRisk {
  import opened Common
  import opened GroupedSums

  const MINUTE := 60
  const HOUR := 3600
  const DAY := 86400

  datatype Tx = Tx(merchant: string, status: string, createdAt: int, amount: int, provider: string)

  datatype Category = PendingTxns | Unreconciled | FailedTransfers

  function StatusOf(c: Category): string {
    match c
    case PendingTxns => "pending"
    case Unreconciled => "success"
    case FailedTransfers => "failed"
  }

  /** Minimum age at which a transaction of the category is at risk. */
  function AgeLimit(c: Category): int {
    match c
    case PendingTxns => 30 * MINUTE
    case Unreconciled => 7 * DAY
    case FailedTransfers => DAY
  }

  predicate InCategory(tx: Tx, merchant: string, now: int, c: Category) {
    tx.merchant == merchant && tx.status == StatusOf(c) && tx.createdAt <= now - AgeLimit(c)
  }

  function Select(txs: seq<Tx>, merchant: string, now: int, c: Category): seq<Tx> {
    if txs == [] then []
    else
      var init := Select(txs[..|txs| - 1], merchant, now, c);
      if InCategory(txs[|txs| - 1], merchant, now, c) then init + [txs[|txs| - 1]] else init
  }

  predicate AtRisk(tx: Tx, merchant: string, now: int) {
    exists c :: InCategory(tx, merchant, now, c)
  }

  /** The transactions at risk, whatever their category. */
  function Exposed(txs: seq<Tx>, merchant: string, now: int): seq<Tx> {
    if txs == [] then []
    else
      var init := Exposed(txs[..|txs| - 1], merchant, now);
      if AtRisk(txs[|txs| - 1], merchant, now) then init + [txs[|txs| - 1]] else init
  }

  function AmountOf(tx: Tx): int {
    tx.amount
  }

  function ProviderOf(tx: Tx): string {
    if tx.provider == "" then "unknown" else tx.provider
  }

  /** An amount and how many transactions it stands for. */
  datatype Share = Share(amount: int, count: int)

  function ShareOf(txs: seq<Tx>): Share {
    Share(Total(txs, AmountOf), |txs|)
  }

  function ProviderShare(txs: seq<Tx>, provider: string): Share {
    Share(TotalFor(txs, ProviderOf, AmountOf, provider), TotalFor(txs, ProviderOf, One, provider))
  }

  function Providers(txs: seq<Tx>): set<string> {
    set i | 0 <= i < |txs| :: ProviderOf(txs[i])
  }

  function Breakdown(txs: seq<Tx>): map<string, Share> {
    map p | p in Providers(txs) :: ProviderShare(txs, p)
  }

  datatype Report = Report(
    pending: Share,
    unreconciled: Share,
    failed: Share,
    total: int,
    score: int,
    byProvider: map<string, Share>)

  // ----- the program -----

  lemma {:induction false} UnknownProvider(txs: seq<Tx>, p: string)
    requires p !in Providers(txs)
    ensures ProviderShare(txs, p) == Share(0, 0)
  {
    if txs == [] {
    } else {
      var n := |txs| - 1;
      assert ProviderOf(txs[n]) in Providers(txs);
      assert forall i :: 0 <= i < n ==> txs[..n][i] == txs[i] && ProviderOf(txs[i]) in Providers(txs);
      UnknownProvider(txs[..n], p);
    }
  }

  /** The breakdown with one transaction more. */
  function WithTx(breakdown: map<string, Share>, tx: Tx): map<string, Share> {
    var p := ProviderOf(tx);
    var before := if p in breakdown then breakdown[p] else Share(0, 0);
    breakdown[p := Share(before.amount + tx.amount, before.count + 1)]
  }

  lemma {:induction false} ProvidersAppend(txs: seq<Tx>, tx: Tx)
    ensures Providers(txs + [tx]) == Providers(txs) + {ProviderOf(tx)}
  {
    var all := txs + [tx];
    assert all[|txs|] == tx;
    assert forall i :: 0 <= i < |txs| ==> all[i] == txs[i];
  }

  lemma {:induction false} ShareAppend(txs: seq<Tx>, tx: Tx, q: string)
    ensures var before := if q in Providers(txs) then ProviderShare(txs, q) else Share(0, 0);
      ProviderShare(txs + [tx], q)
        == if q == ProviderOf(tx) then Share(before.amount + tx.amount, before.count + 1) else before
  {
    TotalForAppend(txs, tx, ProviderOf, AmountOf, q);
    TotalForAppend(txs, tx, ProviderOf, One, q);
    if q !in Providers(txs) {
      UnknownProvider(txs, q);
    }
  }

  lemma {:induction false} BreakdownAppend(txs: seq<Tx>, tx: Tx)
    ensures Breakdown(txs + [tx]) == WithTx(Breakdown(txs), tx)
  {
    ProvidersAppend(txs, tx);
    forall q | q in Providers(txs + [tx])
      ensures Breakdown(txs + [tx])[q] == WithTx(Breakdown(txs), tx)[q]
    {
      ShareAppend(txs, tx, q);
    }
  }

  /** The body of the breakdown loop. */
  method AddTransaction(breakdown: map<string, Share>, tx: Tx) returns (r: map<string, Share>)
    ensures r == WithTx(breakdown, tx)
  {
    r := breakdown;
    var provider := ProviderOf(tx);
    if provider !in r {
      r := r[provider := Share(0, 0)];
    }
    r := r[provider := Share(r[provider].amount + tx.amount, r[provider].count)];
    r := r[provider := Share(r[provider].amount, r[provider].count + 1)];
  }

  method BreakdownByProvider(txs: seq<Tx>) returns (breakdown: map<string, Share>)
    ensures breakdown == Breakdown(txs)
  {
    breakdown := map[];
    var i := 0;
    assert Providers(txs[..i]) == {};
    assert Breakdown(txs[..i]).Keys == {};
    while i < |txs|
      invariant 0 <= i <= |txs|
      invariant breakdown == Breakdown(txs[..i])
    {
      assert txs[..i + 1] == txs[..i] + [txs[i]];
      BreakdownAppend(txs[..i], txs[i]);
      breakdown := AddTransaction(breakdown, txs[i]);
      i := i + 1;
    }
    assert txs[..i] == txs;
  }

  // ----- the score -----

  function Min(a: int, b: int): int {
    if a < b then a else b
  }

  /** Python's `int(a / b)` for a positive divisor: truncation toward zero. */
  function TruncDiv(a: int, b: int): int
    requires b > 0
  {
    if a >= 0 then a / b else -((-a) / b)
  }

  function AmountFactor(total: int): int {
    Min(30, TruncDiv(total * 30, 1000000))
  }

  function CountFactor(count: nat): int {
    Min(20, count / 10)
  }

  /** Seconds since creation, added up. */
  function TotalAge(txs: seq<Tx>, now: int): int {
    if txs == [] then 0 else TotalAge(txs[..|txs| - 1], now) + (now - txs[|txs| - 1].createdAt)
  }

  /** 25 points at an average age of 48 hours. */
  function AgeFactor(pending: seq<Tx>, now: int): int {
    if pending == [] then 0 else Min(25, TruncDiv(TotalAge(pending, now) * 25, 48 * HOUR * |pending|))
  }

  function FailedFactor(count: nat): int {
    Min(15, count * 2)
  }

  /** Whole days since creation, added up. */
  function TotalDays(txs: seq<Tx>, now: int): int {
    if txs == [] then 0 else TotalDays(txs[..|txs| - 1], now) + (now - txs[|txs| - 1].createdAt) / DAY
  }

  /** 10 points at an average of 30 days. */
  function UnreconciledFactor(unreconciled: seq<Tx>, now: int): int {
    if unreconciled == [] then 0 else Min(10, TruncDiv(TotalDays(unreconciled, now) * 10, 30 * |unreconciled|))
  }

  function RawScore(pending: seq<Tx>, unreconciled: seq<Tx>, failed: seq<Tx>, total: int, now: int): int {
    AmountFactor(total) + CountFactor(|pending| + |unreconciled| + |failed|) + AgeFactor(pending, now)
    + FailedFactor(|failed|) + UnreconciledFactor(unreconciled, now)
  }

  function RiskScore(pending: seq<Tx>, unreconciled: seq<Tx>, failed: seq<Tx>, total: int, now: int): int {
    Min(100, RawScore(pending, unreconciled, failed, total, now))
  }

  method SumAges(txs: seq<Tx>, now: int) returns (ages: int)
    ensures ages == TotalAge(txs, now)
  {
    ages := 0;
    var i := 0;
    while i < |txs|
      invariant 0 <= i <= |txs| && ages == TotalAge(txs[..i], now)
    {
      assert txs[..i + 1][..i] == txs[..i];
      ages := ages + (now - txs[i].createdAt);
      i := i + 1;
    }
    assert txs[..i] == txs;
  }

  method SumDays(txs: seq<Tx>, now: int) returns (days: int)
    ensures days == TotalDays(txs, now)
  {
    days := 0;
    var i := 0;
    while i < |txs|
      invariant 0 <= i <= |txs| && days == TotalDays(txs[..i], now)
    {
      assert txs[..i + 1][..i] == txs[..i];
      days := days + (now - txs[i].createdAt) / DAY;
      i := i + 1;
    }
    assert txs[..i] == txs;
  }

  method CalculateRiskScore(pending: seq<Tx>, unreconciled: seq<Tx>, failed: seq<Tx>, total: int, now: int)
    returns (score: int)
    ensures score == RiskScore(pending, unreconciled, failed, total, now)
  {
    score := Min(30, TruncDiv(total * 30, 1000000));
    var count := |pending| + |unreconciled| + |failed|;
    score := score + Min(20, count / 10);
    if pending != [] {
      var ages := SumAges(pending, now);
      score := score + Min(25, TruncDiv(ages * 25, 48 * HOUR * |pending|));
    }
    score := score + Min(15, |failed| * 2);
    if unreconciled != [] {
      var days := SumDays(unreconciled, now);
      score := score + Min(10, TruncDiv(days * 10, 30 * |unreconciled|));
    }
    score := Min(100, score);
  }

  // ----- the report -----

  method CalculateMar(txs: seq<Tx>, merchant: string, now: int) returns (r: Report)
    ensures var p, u, f := Select(txs, merchant, now, PendingTxns), Select(txs, merchant, now, Unreconciled),
                           Select(txs, merchant, now, FailedTransfers);
      && r.pending == ShareOf(p) && r.unreconciled == ShareOf(u) && r.failed == ShareOf(f)
      && r.total == r.pending.amount + r.unreconciled.amount + r.failed.amount
      && r.score == RiskScore(p, u, f, r.total, now)
      && r.byProvider == Breakdown(p + u + f)
  {
    var pending := Select(txs, merchant, now, PendingTxns);
    var unreconciled := Select(txs, merchant, now, Unreconciled);
    var failed := Select(txs, merchant, now, FailedTransfers);
    var total := Total(pending, AmountOf) + Total(unreconciled, AmountOf) + Total(failed, AmountOf);
    var score := CalculateRiskScore(pending, unreconciled, failed, total, now);
    var breakdown := BreakdownByProvider(pending + unreconciled + failed);
    r := Report(ShareOf(pending), ShareOf(unreconciled), ShareOf(failed), total, score, breakdown);
  }

  // ----- exposure is conserved -----

  /** A transaction is in at most one category. */
  lemma CategoriesDisjoint(tx: Tx, merchant: string, now: int, c: Category, d: Category)
    requires InCategory(tx, merchant, now, c) && InCategory(tx, merchant, now, d)
    ensures c == d
  {
    assert "pending" != "success" && "pending" != "failed" && "success" != "failed";
  }

  /** The three categories together hold each transaction at risk exactly once. */
  lemma {:induction false} CategoriesPartition(txs: seq<Tx>, merchant: string, now: int)
    ensures var p, u, f := Select(txs, merchant, now, PendingTxns), Select(txs, merchant, now, Unreconciled),
                           Select(txs, merchant, now, FailedTransfers);
      && Total(p, AmountOf) + Total(u, AmountOf) + Total(f, AmountOf) == Total(Exposed(txs, merchant, now), AmountOf)
      && |p| + |u| + |f| == |Exposed(txs, merchant, now)|
  {
    if txs == [] {
    } else {
      var n := |txs| - 1;
      var init, tx := txs[..n], txs[n];
      CategoriesPartition(init, merchant, now);
      forall c ensures Total(Select(txs, merchant, now, c), AmountOf)
        == Total(Select(init, merchant, now, c), AmountOf) + if InCategory(tx, merchant, now, c) then tx.amount else 0
      {
        TotalAppend(Select(init, merchant, now, c), tx, AmountOf);
      }
      TotalAppend(Exposed(init, merchant, now), tx, AmountOf);
      if AtRisk(tx, merchant, now) {
        var c :| InCategory(tx, merchant, now, c);
        forall d | d != c ensures !InCategory(tx, merchant, now, d) {
          if InCategory(tx, merchant, now, d) {
            CategoriesDisjoint(tx, merchant, now, c, d);
          }
        }
        assert c == PendingTxns || c == Unreconciled || c == FailedTransfers;
      } else {
        assert !InCategory(tx, merchant, now, PendingTxns) && !InCategory(tx, merchant, now, Unreconciled)
            && !InCategory(tx, merchant, now, FailedTransfers);
      }
    }
  }

  /** The shares of the listed providers, added up. */
  function SumShares(breakdown: map<string, Share>, providers: seq<string>): Share
    requires forall i :: 0 <= i < |providers| ==> providers[i] in breakdown
  {
    if providers == [] then Share(0, 0)
    else
      var init := SumShares(breakdown, providers[..|providers| - 1]);
      var last := breakdown[providers[|providers| - 1]];
      Share(init.amount + last.amount, init.count + last.count)
  }

  lemma {:induction false} SumSharesIsGroups(txs: seq<Tx>, providers: seq<string>)
    requires forall i :: 0 <= i < |providers| ==> providers[i] in Breakdown(txs)
    ensures SumShares(Breakdown(txs), providers)
         == Share(TotalOfGroups(txs, ProviderOf, AmountOf, providers), TotalOfGroups(txs, ProviderOf, One, providers))
  {
    if providers == [] {
    } else {
      SumSharesIsGroups(txs, providers[..|providers| - 1]);
    }
  }

  /** A list of the breakdown's providers, each once. */
  ghost predicate Lists(providers: seq<string>, breakdown: map<string, Share>) {
    Distinct(providers) && forall p :: p in providers <==> p in breakdown
  }

  /** Summing a breakdown over its providers gives back the amount and the count of its transactions. */
  lemma {:induction false} ProvidersPartition(all: seq<Tx>, providers: seq<string>)
    requires Lists(providers, Breakdown(all))
    ensures (forall i :: 0 <= i < |providers| ==> providers[i] in Breakdown(all))
    ensures SumShares(Breakdown(all), providers) == ShareOf(all)
  {
    forall i | 0 <= i < |all| ensures ProviderOf(all[i]) in providers {
      assert ProviderOf(all[i]) in Breakdown(all);
    }
    forall i | 0 <= i < |providers| ensures providers[i] in Breakdown(all) {
      assert providers[i] in providers;
    }
    SumSharesIsGroups(all, providers);
    PartitionTotal(all, ProviderOf, AmountOf, providers);
    PartitionTotal(all, ProviderOf, One, providers);
    CountIsLength(all);
  }

  /**
   The reported total equals the exposure of all transactions at risk, the sum over the three
   categories and the sum over the providers, in amount and in count.
   */
  lemma {:induction false} ExposureConserved(txs: seq<Tx>, merchant: string, now: int, providers: seq<string>)
    requires var p, u, f := Select(txs, merchant, now, PendingTxns), Select(txs, merchant, now, Unreconciled),
                            Select(txs, merchant, now, FailedTransfers);
      Lists(providers, Breakdown(p + u + f))
    ensures var p, u, f := Select(txs, merchant, now, PendingTxns), Select(txs, merchant, now, Unreconciled),
                           Select(txs, merchant, now, FailedTransfers);
      && ShareOf(Exposed(txs, merchant, now))
           == Share(ShareOf(p).amount + ShareOf(u).amount + ShareOf(f).amount,
                    ShareOf(p).count + ShareOf(u).count + ShareOf(f).count)
      && SumShares(Breakdown(p + u + f), providers) == ShareOf(Exposed(txs, merchant, now))
  {
    var p, u, f := Select(txs, merchant, now, PendingTxns), Select(txs, merchant, now, Unreconciled),
                   Select(txs, merchant, now, FailedTransfers);
    var all := p + u + f;
    CategoriesPartition(txs, merchant, now);
    TotalConcat(p + u, f, AmountOf);
    TotalConcat(p, u, AmountOf);
    ProvidersPartition(all, providers);
  }

  lemma {:induction false} SelectGrows(txs: seq<Tx>, merchant: string, now: int, later: int, c: Category)
    requires now <= later
    ensures |Select(txs, merchant, now, c)| <= |Select(txs, merchant, later, c)|
  {
    if txs == [] {
    } else {
      SelectGrows(txs[..|txs| - 1], merchant, now, later, c);
    }
  }

  lemma {:induction false} RiskStays(tx: Tx, merchant: string, now: int, later: int)
    requires now <= later && AtRisk(tx, merchant, now)
    ensures AtRisk(tx, merchant, later)
  {
    var c :| InCategory(tx, merchant, now, c);
    assert InCategory(tx, merchant, later, c);
  }

  lemma {:induction false} ExposedAppend(txs: seq<Tx>, tx: Tx, merchant: string, now: int)
    ensures var before, after := Exposed(txs, merchant, now), Exposed(txs + [tx], merchant, now);
      && |after| == |before| + (if AtRisk(tx, merchant, now) then 1 else 0)
      && Total(after, AmountOf) == Total(before, AmountOf) + if AtRisk(tx, merchant, now) then tx.amount else 0
  {
    assert (txs + [tx])[..|txs|] == txs;
    TotalAppend(Exposed(txs, merchant, now), tx, AmountOf);
  }

  /** The exposure of the first list is at most that of the second, in amount and in count. */
  predicate NoMore(some: seq<Tx>, more: seq<Tx>) {
    Total(some, AmountOf) <= Total(more, AmountOf) && |some| <= |more|
  }

  lemma {:induction false} ExposedGrows(txs: seq<Tx>, merchant: string, now: int, later: int)
    requires now <= later && forall i :: 0 <= i < |txs| ==> txs[i].amount >= 0
    ensures NoMore(Exposed(txs, merchant, now), Exposed(txs, merchant, later))
  {
    if txs == [] {
    } else {
      var init, tx := txs[..|txs| - 1], txs[|txs| - 1];
      ExposedGrows(init, merchant, now, later);
      ExposedAppend(init, tx, merchant, now);
      ExposedAppend(init, tx, merchant, later);
      if AtRisk(tx, merchant, now) {
        RiskStays(tx, merchant, now, later);
      }
      assert txs == init + [tx];
    }
  }

  /** Time alone never reduces exposure: what is at risk stays so, and amounts are not negative. */
  lemma {:induction false} ExposureGrowsWithTime(txs: seq<Tx>, merchant: string, now: int, later: int)
    requires now <= later && forall i :: 0 <= i < |txs| ==> txs[i].amount >= 0
    ensures Total(Exposed(txs, merchant, now), AmountOf) <= Total(Exposed(txs, merchant, later), AmountOf)
    ensures |Exposed(txs, merchant, now)| <= |Exposed(txs, merchant, later)|
    ensures forall c :: |Select(txs, merchant, now, c)| <= |Select(txs, merchant, later, c)|
  {
    ExposedGrows(txs, merchant, now, later);
    forall c ensures |Select(txs, merchant, now, c)| <= |Select(txs, merchant, later, c)| {
      SelectGrows(txs, merchant, now, later, c);
    }
  }

  // ----- the score is bounded -----

  /** The caps of the five factors already keep the score at 100 or below: the outer cap never binds. */
  lemma OuterCapNeverBinds(pending: seq<Tx>, unreconciled: seq<Tx>, failed: seq<Tx>, total: int, now: int)
    ensures RiskScore(pending, unreconciled, failed, total, now)
         == RawScore(pending, unreconciled, failed, total, now) <= 100
  {
  }

  lemma {:induction false} AgesNotNegative(txs: seq<Tx>, merchant: string, now: int, c: Category)
    ensures TotalAge(Select(txs, merchant, now, c), now) >= 0 && TotalDays(Select(txs, merchant, now, c), now) >= 0
  {
    if txs == [] {
    } else {
      var n := |txs| - 1;
      AgesNotNegative(txs[..n], merchant, now, c);
      var kept := Select(txs[..n], merchant, now, c);
      if InCategory(txs[n], merchant, now, c) {
        assert (kept + [txs[n]])[..|kept|] == kept;
      }
    }
  }

  lemma ProductsKeepOrder(x: int, y: int, b: int)
    requires x <= y && b > 0
    ensures x * b <= y * b
  {
  }

  lemma FloorReaches(a: nat, b: int, k: int)
    requires b > 0
    ensures a / b >= k <==> a >= k * b
  {
    var q := a / b;
    assert q * b <= a < (q + 1) * b;
    if q >= k {
      ProductsKeepOrder(k, q, b);
    } else {
      ProductsKeepOrder(q + 1, k, b);
    }
  }

  lemma AgeFactorsNotNegative(txs: seq<Tx>, now: int)
    ensures TotalAge(txs, now) >= 0 ==> AgeFactor(txs, now) >= 0
    ensures TotalDays(txs, now) >= 0 ==> UnreconciledFactor(txs, now) >= 0
  {
    if txs != [] {
      var hours, days := 48 * HOUR * |txs|, 30 * |txs|;
      if TotalAge(txs, now) >= 0 {
        FloorReaches(TotalAge(txs, now) * 25, hours, 0);
      }
      if TotalDays(txs, now) >= 0 {
        FloorReaches(TotalDays(txs, now) * 10, days, 0);
      }
    }
  }

  /** The amount factor costs at most the given points exactly when the total stays above the matching bound. */
  lemma AmountFactorAtLeast(total: int, points: nat)
    ensures AmountFactor(total) + points >= 0 <==> total * 30 > -1000000 * (points + 1)
  {
    if total >= 0 {
      FloorReaches(total * 30, 1000000, 0);
    } else {
      FloorReaches(-total * 30, 1000000, points + 1);
    }
  }

  /** The amount factor is negative exactly when the total is so far below zero that truncation leaves a point. */
  lemma AmountFactorSign(total: int)
    ensures AmountFactor(total) >= 0 <==> total * 30 > -1000000
  {
    AmountFactorAtLeast(total, 0);
  }

  /** The points of the four factors that do not depend on the total. */
  function OtherFactors(pending: seq<Tx>, unreconciled: seq<Tx>, failed: seq<Tx>, now: int): int {
    CountFactor(|pending| + |unreconciled| + |failed|) + AgeFactor(pending, now)
    + FailedFactor(|failed|) + UnreconciledFactor(unreconciled, now)
  }

  /**
   A reported score lies in the documented range 0 to 100 exactly when the total is not so far
   below zero that its factor costs more points than the other four give.
   */
  lemma {:induction false} ScoreInRangeIff(txs: seq<Tx>, merchant: string, now: int, total: int)
    ensures var p, u, f := Select(txs, merchant, now, PendingTxns), Select(txs, merchant, now, Unreconciled),
                           Select(txs, merchant, now, FailedTransfers);
      && OtherFactors(p, u, f, now) >= 0
      && (0 <= RiskScore(p, u, f, total, now) <= 100 <==> total * 30 > -1000000 * (OtherFactors(p, u, f, now) + 1))
  {
    var p, u, f := Select(txs, merchant, now, PendingTxns), Select(txs, merchant, now, Unreconciled),
                   Select(txs, merchant, now, FailedTransfers);
    AgesNotNegative(txs, merchant, now, PendingTxns);
    AgesNotNegative(txs, merchant, now, Unreconciled);
    AgeFactorsNotNegative(p, now);
    AgeFactorsNotNegative(u, now);
    AmountFactorAtLeast(total, OtherFactors(p, u, f, now));
  }

  /** A negative total can leave the documented range 0-100: a failed transfer of minus one million scores -28. */
  lemma NegativeScore()
    ensures exists tx: Tx ::
      InCategory(tx, "m", DAY, FailedTransfers) && RiskScore([], [], [tx], Total([tx], AmountOf), DAY) == -28
  {
    var tx := Tx("m", "failed", 0, -1000000, "p");
    assert Total([tx], AmountOf) == -1000000 by {
      TotalAppend([], tx, AmountOf);
      assert [] + [tx] == [tx];
    }
    assert InCategory(tx, "m", DAY, FailedTransfers);
  }

  /** A truncated quotient reaches a positive bound exactly when the dividend reaches its multiple. */
  lemma QuotientReaches(a: int, b: int, k: int)
    requires b > 0 && k >= 1
    ensures TruncDiv(a, b) >= k <==> a >= k * b
  {
    ProductsKeepOrder(1, k, b);
    if a >= 0 {
      FloorReaches(a, b, k);
    } else {
      FloorReaches(-a, b, 0);
    }
  }

  /**
   The score is 100 exactly when every threshold is reached: a million at risk, 200 transactions,
   eight failures, an average pending age of 48 hours and an average unreconciled age of 30 days.
   */
  lemma {:induction false} FullScoreIff(pending: seq<Tx>, unreconciled: seq<Tx>, failed: seq<Tx>, total: int, now: int)
    ensures RiskScore(pending, unreconciled, failed, total, now) == 100 <==>
      && total >= 1000000
      && |pending| + |unreconciled| + |failed| >= 200
      && pending != [] && TotalAge(pending, now) >= 48 * HOUR * |pending|
      && |failed| >= 8
      && unreconciled != [] && TotalDays(unreconciled, now) >= 30 * |unreconciled|
  {
    QuotientReaches(total * 30, 1000000, 30);
    if pending != [] {
      QuotientReaches(TotalAge(pending, now) * 25, 48 * HOUR * |pending|, 25);
    }
    if unreconciled != [] {
      QuotientReaches(TotalDays(unreconciled, now) * 10, 30 * |unreconciled|, 10);
    }
  }
}
