/**
 Money at risk in terms of the transactions' own status texts, ages in seconds and providers, and
 the points of the score.
 */
module RiskTerms {
  import opened Common
  import opened GroupedSums
  import opened MoneyAtRisk

  // ----- the three shares -----

  /** Amount and number of the merchant's transactions of a status that are at least so many seconds old. */
  function OldShare(txs: seq<Tx>, merchant: string, status: string, seconds: int, now: int): Share {
    if txs == [] then Share(0, 0)
    else
      var last := txs[|txs| - 1];
      var init := OldShare(txs[..|txs| - 1], merchant, status, seconds, now);
      if last.merchant == merchant && last.status == status && now - last.createdAt >= seconds then
        Share(init.amount + last.amount, init.count + 1)
      else init
  }

  lemma {:induction false} ShareIsOldShare(txs: seq<Tx>, merchant: string, now: int, c: Category)
    ensures ShareOf(Select(txs, merchant, now, c)) == OldShare(txs, merchant, StatusOf(c), AgeLimit(c), now)
  {
    if txs == [] {
    } else {
      var n := |txs| - 1;
      ShareIsOldShare(txs[..n], merchant, now, c);
      TotalAppend(Select(txs[..n], merchant, now, c), txs[n], AmountOf);
    }
  }

  /**
   The three shares of the report: pending for half an hour, successful for seven days, failed for
   one day, each of the merchant's own transactions and the bound included.
   */
  lemma {:induction false} SharesAreOldShares(txs: seq<Tx>, merchant: string, now: int)
    ensures ShareOf(Select(txs, merchant, now, PendingTxns)) == OldShare(txs, merchant, "pending", 1800, now)
    ensures ShareOf(Select(txs, merchant, now, Unreconciled)) == OldShare(txs, merchant, "success", 604800, now)
    ensures ShareOf(Select(txs, merchant, now, FailedTransfers)) == OldShare(txs, merchant, "failed", 86400, now)
  {
    ShareIsOldShare(txs, merchant, now, PendingTxns);
    ShareIsOldShare(txs, merchant, now, Unreconciled);
    ShareIsOldShare(txs, merchant, now, FailedTransfers);
  }

  // ----- the breakdown -----

  /** The transaction is listed under the provider; without one it is listed as unknown. */
  predicate ListedUnder(tx: Tx, provider: string) {
    (tx.provider == provider && provider != "") || (tx.provider == "" && provider == "unknown")
  }

  function ListedShare(txs: seq<Tx>, provider: string): Share {
    if txs == [] then Share(0, 0)
    else
      var last := txs[|txs| - 1];
      var init := ListedShare(txs[..|txs| - 1], provider);
      if ListedUnder(last, provider) then Share(init.amount + last.amount, init.count + 1) else init
  }

  lemma ProviderIff(tx: Tx, provider: string)
    ensures ProviderOf(tx) == provider <==> ListedUnder(tx, provider)
  {
  }

  lemma {:induction false} ProviderShareIsListed(txs: seq<Tx>, provider: string)
    ensures ProviderShare(txs, provider) == ListedShare(txs, provider)
  {
    if txs == [] {
    } else {
      ProviderShareIsListed(txs[..|txs| - 1], provider);
      ProviderIff(txs[|txs| - 1], provider);
    }
  }

  /** The breakdown has exactly the providers that transactions are listed under, each with their amount and number. */
  lemma {:induction false} BreakdownIsExact(txs: seq<Tx>, provider: string)
    ensures provider in Breakdown(txs) <==> exists i :: 0 <= i < |txs| && ListedUnder(txs[i], provider)
    ensures provider in Breakdown(txs) ==> Breakdown(txs)[provider] == ListedShare(txs, provider)
  {
    ProviderShareIsListed(txs, provider);
    forall i | 0 <= i < |txs| ensures ProviderOf(txs[i]) == provider <==> ListedUnder(txs[i], provider) {
      ProviderIff(txs[i], provider);
    }
  }

  // ----- the points -----

  /** Seconds of age, added up. */
  function SumOfAges(txs: seq<Tx>, now: int): int {
    if txs == [] then 0 else SumOfAges(txs[..|txs| - 1], now) + now - txs[|txs| - 1].createdAt
  }

  /** Full days of age, added up. */
  function SumOfDays(txs: seq<Tx>, now: int): int {
    if txs == [] then 0 else SumOfDays(txs[..|txs| - 1], now) + (now - txs[|txs| - 1].createdAt) / 86400
  }

  lemma {:induction false} AgesAreSums(txs: seq<Tx>, now: int)
    ensures TotalAge(txs, now) == SumOfAges(txs, now) && TotalDays(txs, now) == SumOfDays(txs, now)
  {
    if txs == [] {
    } else {
      AgesAreSums(txs[..|txs| - 1], now);
    }
  }

  /**
   When each factor of the score has reached its k-th point: one for every thirtieth of a million at
   risk, for every ten transactions, for every 48/25 hours of average pending age, two for every
   failure, and one for every three days of average unreconciled age, up to the factor's cap.
   */
  lemma {:induction false} FactorsReach(
      pending: seq<Tx>, unreconciled: seq<Tx>, failed: seq<Tx>, total: int, now: int, k: int)
    requires k >= 1
    ensures AmountFactor(total) >= k <==> k <= 30 && total * 30 >= k * 1000000
    ensures CountFactor(|pending| + |unreconciled| + |failed|) >= k
       <==> k <= 20 && |pending| + |unreconciled| + |failed| >= 10 * k
    ensures AgeFactor(pending, now) >= k
       <==> k <= 25 && pending != [] && SumOfAges(pending, now) * 25 >= k * (172800 * |pending|)
    ensures FailedFactor(|failed|) >= k <==> k <= 15 && 2 * |failed| >= k
    ensures UnreconciledFactor(unreconciled, now) >= k
       <==> k <= 10 && unreconciled != [] && SumOfDays(unreconciled, now) * 10 >= k * (30 * |unreconciled|)
  {
    QuotientReaches(total * 30, 1000000, k);
    AgesAreSums(pending, now);
    AgesAreSums(unreconciled, now);
    if pending != [] {
      QuotientReaches(TotalAge(pending, now) * 25, 48 * HOUR * |pending|, k);
    }
    if unreconciled != [] {
      QuotientReaches(TotalDays(unreconciled, now) * 10, 30 * |unreconciled|, k);
    }
  }

  /** A score that stays within the documented range is the sum of the five factors. */
  lemma ScoreIsSum(pending: seq<Tx>, unreconciled: seq<Tx>, failed: seq<Tx>, total: int, now: int)
    ensures RiskScore(pending, unreconciled, failed, total, now)
         == AmountFactor(total) + CountFactor(|pending| + |unreconciled| + |failed|) + AgeFactor(pending, now)
            + FailedFactor(|failed|) + UnreconciledFactor(unreconciled, now)
  {
  }
}
