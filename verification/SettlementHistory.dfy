/** What a settlement row keeps of the writes that named it, and the summary in terms of the rows' own columns. */
module SettlementHistory {
  import opened Common
  import opened GroupedSums
  import opened Settlements

  predicate Names(w: Write, merchant: string, reference: string) {
    w.merchant == merchant && w.reference == reference
  }

  function FirstNaming(ws: seq<Write>, merchant: string, reference: string): Option<Write> {
    if ws == [] then None
    else
      var earlier := FirstNaming(ws[..|ws| - 1], merchant, reference);
      if earlier.None? && Names(ws[|ws| - 1], merchant, reference) then Some(ws[|ws| - 1]) else earlier
  }

  /** The last value that an upsert gave after the first write, which sets the field in any case. */
  function LastGiven<T>(ws: seq<Write>, merchant: string, reference: string, given: Write -> Option<T>): Option<T> {
    if ws == [] then None
    else
      var init, w := ws[..|ws| - 1], ws[|ws| - 1];
      var before := LastGiven(init, merchant, reference, given);
      if !Names(w, merchant, reference) then before
      else if FirstNaming(init, merchant, reference).None? then given(w)
      else if w.Upsert? && given(w).Some? then given(w)
      else before
  }

  /** A received settlement counts as settled at the time it names. */
  function SettledAtOf(w: Write): Option<int> {
    if w.Upsert? then w.settledAt else Some(w.at)
  }

  function ExpectedAtOf(w: Write): Option<int> {
    if w.Upsert? then w.expectedAt else None
  }

  function PayloadOf(w: Write): Option<string> {
    if w.Upsert? then w.rawPayload else None
  }

  function AccountOf(w: Write): Option<string> {
    if w.Upsert? then w.providerAccount else None
  }

  /** The row's columns, given the writes that named it. */
  predicate Remembers(row: Row, ws: seq<Write>, merchant: string, reference: string) {
    var first := FirstNaming(ws, merchant, reference);
    && first.Some? && row.merchant == merchant && row.reference == reference && row.provider == first.value.provider
    && row.settledAt == LastGiven(ws, merchant, reference, SettledAtOf)
    && row.expectedAt == LastGiven(ws, merchant, reference, ExpectedAtOf)
    && row.rawPayload == LastGiven(ws, merchant, reference, PayloadOf)
    && row.providerAccount == LastGiven(ws, merchant, reference, AccountOf)
    && (LastUpsert(ws, merchant, reference).None? ==>
          row.amount == first.value.amount && row.currency == first.value.currency)
  }

  predicate Remembered(rows: seq<Row>, ws: seq<Write>, merchant: string, reference: string) {
    var i := Find(rows, merchant, reference);
    if i < |rows| then Remembers(rows[i], ws, merchant, reference)
    else FirstNaming(ws, merchant, reference).None? && LastUpsert(ws, merchant, reference).None?
  }

  /** The write's own row takes over what it gives. */
  lemma {:induction false} OwnWriteRemembered(rows: seq<Row>, init: seq<Write>, w: Write, ws: seq<Write>)
    requires ws != [] && init == ws[..|ws| - 1] && w == ws[|ws| - 1]
    requires Remembered(rows, init, w.merchant, w.reference) && Written(rows, w).Ok?
    ensures Remembered(Written(rows, w).value, ws, w.merchant, w.reference)
  {
    WriteMovesOwn(rows, w);
  }

  lemma {:induction false} OtherWriteRemembered(
      rows: seq<Row>, init: seq<Write>, w: Write, ws: seq<Write>, merchant: string, reference: string)
    requires ws != [] && init == ws[..|ws| - 1] && w == ws[|ws| - 1] && !Names(w, merchant, reference)
    requires Remembered(rows, init, merchant, reference) && Written(rows, w).Ok?
    ensures Remembered(Written(rows, w).value, ws, merchant, reference)
  {
    WriteSparesOthers(rows, w, merchant, reference);
  }

  /**
   However upserts and events interleave, a row keeps the provider of the first write that named it
   and, of each optional field, the last value given by an upsert since, an absent one leaving what
   was there; a received event changes nothing of an existing row.
   */
  lemma {:induction false} RowsRememberWrites(ws: seq<Write>, merchant: string, reference: string)
    ensures Remembered(AfterWrites(ws), ws, merchant, reference)
    decreases |ws|
  {
    if ws == [] {
    } else {
      var init, w := ws[..|ws| - 1], ws[|ws| - 1];
      RowsRememberWrites(init, merchant, reference);
      TwoWritersOneRow(init, w);
      if Names(w, merchant, reference) {
        OwnWriteRemembered(AfterWrites(init), init, w, ws);
      } else {
        OtherWriteRemembered(AfterWrites(init), init, w, ws, merchant, reference);
      }
    }
  }

  // ----- the summary over all rows -----

  function MinorOrZero(row: Row): int {
    if row.amountMinor.Some? then row.amountMinor.value else 0
  }

  /** The minor amounts of the merchant's rows of one status, nulls as zero. */
  function StatusTotal(rows: seq<Row>, merchant: string, status: string): int {
    if rows == [] then 0
    else
      var last := rows[|rows| - 1];
      StatusTotal(rows[..|rows| - 1], merchant, status)
      + if last.merchant == merchant && last.status == status then MinorOrZero(last) else 0
  }

  /** Amount and number of the merchant's rows of one currency and status. */
  function LineTotal(rows: seq<Row>, merchant: string, currency: string, status: string): (r: (int, int)) {
    if rows == [] then (0, 0)
    else
      var last := rows[|rows| - 1];
      var init := LineTotal(rows[..|rows| - 1], merchant, currency, status);
      if last.merchant == merchant && last.currency == currency && last.status == status then
        (init.0 + MinorOrZero(last), init.1 + 1)
      else init
  }

  lemma {:induction false} TotalsAreStatusTotals(rows: seq<Row>, merchant: string)
    ensures Total(OfMerchant(rows, merchant), SettledMinor) == StatusTotal(rows, merchant, "settled")
    ensures Total(OfMerchant(rows, merchant), PendingMinor) == StatusTotal(rows, merchant, "pending")
  {
    if rows == [] {
    } else {
      var n := |rows| - 1;
      TotalsAreStatusTotals(rows[..n], merchant);
      TotalAppend(OfMerchant(rows[..n], merchant), rows[n], SettledMinor);
      TotalAppend(OfMerchant(rows[..n], merchant), rows[n], PendingMinor);
    }
  }

  lemma {:induction false} GroupsAreLineTotals(rows: seq<Row>, merchant: string, key: GroupKey)
    ensures var mine := OfMerchant(rows, merchant);
      LineTotal(rows, merchant, key.currency, key.status)
        == (TotalFor(mine, KeyOf, MinorOf, key), TotalFor(mine, KeyOf, One, key))
  {
    if rows == [] {
    } else {
      var n := |rows| - 1;
      GroupsAreLineTotals(rows[..n], merchant, key);
      TotalForAppend(OfMerchant(rows[..n], merchant), rows[n], KeyOf, MinorOf, key);
      TotalForAppend(OfMerchant(rows[..n], merchant), rows[n], KeyOf, One, key);
    }
  }

  /**
   The summary of a merchant over the whole table: its totals are the merchant's settled and
   pending minor amounts, and each line has amount and number of the rows of its currency and status.
   */
  lemma {:induction false} SummaryOverTable(rows: seq<Row>, merchant: string, answer: seq<Group>)
    requires IsGroupBy(OfMerchant(rows, merchant), answer)
    ensures Total(OfMerchant(rows, merchant), SettledMinor) == StatusTotal(rows, merchant, "settled")
    ensures Total(OfMerchant(rows, merchant), PendingMinor) == StatusTotal(rows, merchant, "pending")
    ensures forall i :: 0 <= i < |answer| ==>
      LineTotal(rows, merchant, answer[i].key.currency, answer[i].key.status) == (OrZero(answer[i].total), answer[i].count)
  {
    TotalsAreStatusTotals(rows, merchant);
    forall i | 0 <= i < |answer|
      ensures LineTotal(rows, merchant, answer[i].key.currency, answer[i].key.status)
           == (OrZero(answer[i].total), answer[i].count)
    {
      GroupsAreLineTotals(rows, merchant, answer[i].key);
    }
  }
}
