/**
 Provider settlements: the service's upsert, the event handler's insert-if-absent, which share
 one table, and the summary by currency and status.
 */
module Settlements {
  import opened Common
  import opened GroupedSums

  const SETTLED := "settled"
  const PENDING := "pending"

  /** One row; `amountMinor` stays null on rows that only the event handler wrote. */
  datatype Row = Row(
    merchant: string,
    reference: string,
    provider: string,
    amount: int,
    amountMinor: Option<int>,
    currency: string,
    status: string,
    settledAt: Option<int>,
    expectedAt: Option<int>,
    rawPayload: Option<string>,
    providerAccount: Option<string>)

  /** The two ways in which a settlement is written. */
  datatype Write =
    | Upsert(
        merchant: string,
        reference: string,
        provider: string,
        amount: int,
        currency: string,
        status: string,
        settledAt: Option<int>,
        expectedAt: Option<int>,
        rawPayload: Option<string>,
        providerAccount: Option<string>)
    | Receive(merchant: string, reference: string, provider: string, amount: int, currency: string, at: int)

  datatype SettlementError = MultipleRows

  predicate At(row: Row, merchant: string, reference: string) {
    row.merchant == merchant && row.reference == reference
  }

  /** Position of the first row for merchant and reference, or the table's length. */
  function Find(rows: seq<Row>, merchant: string, reference: string): (i: nat)
    ensures i <= |rows|
    ensures i < |rows| ==> At(rows[i], merchant, reference)
    ensures forall j :: 0 <= j < i ==> !At(rows[j], merchant, reference)
  {
    if rows == [] || At(rows[0], merchant, reference) then 0 else 1 + Find(rows[1..], merchant, reference)
  }

  predicate Has(rows: seq<Row>, merchant: string, reference: string) {
    Find(rows, merchant, reference) < |rows|
  }

  /** More than one row for merchant and reference: the single-row look-up raises. */
  predicate Several(rows: seq<Row>, merchant: string, reference: string) {
    var i := Find(rows, merchant, reference);
    i < |rows| && Has(rows[i + 1..], merchant, reference)
  }

  function Overwritten(row: Row, u: Write): Row
    requires u.Upsert?
  {
    row.(
      status := u.status, amount := u.amount, amountMinor := Some(u.amount), currency := u.currency,
      settledAt := if u.settledAt.Some? then u.settledAt else row.settledAt,
      expectedAt := if u.expectedAt.Some? then u.expectedAt else row.expectedAt,
      rawPayload := if u.rawPayload.Some? then u.rawPayload else row.rawPayload,
      providerAccount := if u.providerAccount.Some? then u.providerAccount else row.providerAccount)
  }

  function NewRow(w: Write): Row {
    match w
    case Upsert(m, r, p, a, c, s, at, ex, raw, acc) => Row(m, r, p, a, Some(a), c, s, at, ex, raw, acc)
    case Receive(m, r, p, a, c, at) => Row(m, r, p, a, None, c, PENDING, Some(at), None, None, None)
  }

  /** The table after a write; the upsert's look-up may raise, the handler's takes the first row. */
  function Written(rows: seq<Row>, w: Write): Result<seq<Row>, SettlementError> {
    var i := Find(rows, w.merchant, w.reference);
    if w.Upsert? && Several(rows, w.merchant, w.reference) then Err(MultipleRows)
    else if i == |rows| then Ok(rows + [NewRow(w)])
    else if w.Upsert? then Ok(rows[i := Overwritten(rows[i], w)])
    else Ok(rows)
  }

  class SettlementTable {
    var rows: seq<Row>

    constructor ()
      ensures rows == []
    {
      rows := [];
    }

    method UpsertSettlement(u: Write) returns (r: Result<Row, SettlementError>)
      requires u.Upsert?
      modifies this
      ensures r.Ok? <==> Written(old(rows), u).Ok?
      ensures r.Ok? ==> rows == Written(old(rows), u).value && r.value in rows && At(r.value, u.merchant, u.reference)
      ensures r.Err? ==> rows == old(rows)
    {
      var i := Find(rows, u.merchant, u.reference);
      if Several(rows, u.merchant, u.reference) {
        return Err(MultipleRows);
      }
      if i < |rows| {
        var existing := rows[i];
        existing := existing.(status := u.status);
        existing := existing.(amount := u.amount);
        existing := existing.(amountMinor := Some(u.amount));
        existing := existing.(currency := u.currency);
        if u.settledAt.Some? {
          existing := existing.(settledAt := u.settledAt);
        }
        if u.expectedAt.Some? {
          existing := existing.(expectedAt := u.expectedAt);
        }
        if u.rawPayload.Some? {
          existing := existing.(rawPayload := u.rawPayload);
        }
        if u.providerAccount.Some? {
          existing := existing.(providerAccount := u.providerAccount);
        }
        rows := rows[i := existing];
        assert rows[i] == existing;
        return Ok(existing);
      }
      var settlement := NewRow(u);
      rows := rows + [settlement];
      return Ok(settlement);
    }
  }

  // ----- two writers, one row -----

  predicate OneRowEach(rows: seq<Row>) {
    forall i, j :: 0 <= i < j < |rows| ==> !At(rows[j], rows[i].merchant, rows[i].reference)
  }

  /** The table after a run of writes; a write that raises leaves it alone. */
  function AfterWrites(ws: seq<Write>): seq<Row> {
    if ws == [] then []
    else
      var before := AfterWrites(ws[..|ws| - 1]);
      var r := Written(before, ws[|ws| - 1]);
      if r.Ok? then r.value else before
  }

  /** The single-row look-up raises exactly when two rows have merchant and reference. */
  lemma {:induction false} SeveralIff(rows: seq<Row>, merchant: string, reference: string)
    ensures Several(rows, merchant, reference)
       <==> exists i, j :: 0 <= i < j < |rows| && At(rows[i], merchant, reference) && At(rows[j], merchant, reference)
  {
    var i := Find(rows, merchant, reference);
    if i < |rows| {
      var rest := rows[i + 1..];
      var k := Find(rest, merchant, reference);
      if k < |rest| {
        assert rest[k] == rows[i + 1 + k];
      }
      assert forall j :: i < j < |rows| ==> rows[j] == rest[j - i - 1];
    }
  }

  lemma OneRowNeverSeveral(rows: seq<Row>, merchant: string, reference: string)
    requires OneRowEach(rows)
    ensures !Several(rows, merchant, reference)
  {
    var i := Find(rows, merchant, reference);
    if i < |rows| {
      var rest := rows[i + 1..];
      forall j | 0 <= j < |rest| ensures !At(rest[j], merchant, reference) {
        assert rest[j] == rows[i + 1 + j];
      }
    }
  }

  lemma WriteKeepsOneRow(rows: seq<Row>, w: Write)
    requires OneRowEach(rows)
    ensures Written(rows, w).Ok? && OneRowEach(Written(rows, w).value)
    ensures Has(Written(rows, w).value, w.merchant, w.reference)
  {
    OneRowNeverSeveral(rows, w.merchant, w.reference);
    var after := Written(rows, w).value;
    var i := Find(rows, w.merchant, w.reference);
    assert At(after[i], w.merchant, w.reference);
  }

  /**
   However upserts and received events interleave, no merchant's reference gets a second row, so
   the upsert's single-row look-up never raises.
   */
  lemma {:induction false} TwoWritersOneRow(ws: seq<Write>, next: Write)
    ensures OneRowEach(AfterWrites(ws)) && Written(AfterWrites(ws), next).Ok?
    decreases |ws|
  {
    if ws == [] {
    } else {
      TwoWritersOneRow(ws[..|ws| - 1], ws[|ws| - 1]);
      WriteKeepsOneRow(AfterWrites(ws[..|ws| - 1]), ws[|ws| - 1]);
    }
    WriteKeepsOneRow(AfterWrites(ws), next);
  }

  /** What the writes up to now say about a reference: the money fields of its last upsert, if any. */
  function LastUpsert(ws: seq<Write>, merchant: string, reference: string): (r: Option<Write>)
    ensures r.Some? ==> r.value.Upsert?
  {
    if ws == [] then None
    else
      var w := ws[|ws| - 1];
      if w.Upsert? && w.merchant == merchant && w.reference == reference then Some(w)
      else LastUpsert(ws[..|ws| - 1], merchant, reference)
  }

  predicate Mentions(ws: seq<Write>, merchant: string, reference: string) {
    exists i :: 0 <= i < |ws| && ws[i].merchant == merchant && ws[i].reference == reference
  }

  /** The row's money fields are those of the reference's last upsert, or untouched defaults. */
  predicate Follows(row: Row, last: Option<Write>)
    requires last.Some? ==> last.value.Upsert?
  {
    if last.Some? then
      && row.amountMinor == Some(last.value.amount) && row.amount == last.value.amount
      && row.currency == last.value.currency && row.status == last.value.status
    else row.amountMinor == None && row.status == PENDING
  }

  lemma MentionsLater(ws: seq<Write>, w: Write, merchant: string, reference: string)
    ensures Mentions(ws + [w], merchant, reference)
       <==> Mentions(ws, merchant, reference) || (w.merchant == merchant && w.reference == reference)
  {
    var all := ws + [w];
    assert all[|ws|] == w;
    assert forall i :: 0 <= i < |ws| ==> all[i] == ws[i];
    if Mentions(ws, merchant, reference) {
      var i :| 0 <= i < |ws| && ws[i].merchant == merchant && ws[i].reference == reference;
      assert all[i].merchant == merchant;
    }
  }

  lemma {:induction false} UnmentionedHasNoUpsert(ws: seq<Write>, merchant: string, reference: string)
    requires !Mentions(ws, merchant, reference)
    ensures LastUpsert(ws, merchant, reference).None?
  {
    if ws == [] {
    } else {
      var n := |ws| - 1;
      MentionsLater(ws[..n], ws[n], merchant, reference);
      assert ws == ws[..n] + [ws[n]];
      UnmentionedHasNoUpsert(ws[..n], merchant, reference);
    }
  }

  lemma {:induction false} FirstAt(rows: seq<Row>, merchant: string, reference: string, i: nat)
    requires i < |rows| && At(rows[i], merchant, reference)
    requires forall k :: 0 <= k < i ==> !At(rows[k], merchant, reference)
    ensures Find(rows, merchant, reference) == i
  {
  }

  /** A write leaves the table as long or one row longer, and changes at most the row at its own reference's place. */
  lemma {:induction false} WriteChangesOnePlace(rows: seq<Row>, w: Write)
    requires Written(rows, w).Ok?
    ensures var after, at := Written(rows, w).value, Find(rows, w.merchant, w.reference);
      && |rows| <= |after| <= |rows| + 1 && at < |after| && At(after[at], w.merchant, w.reference)
      && (forall k :: 0 <= k < |rows| && k != at ==> after[k] == rows[k])
      && (at < |rows| ==> |after| == |rows|)
  {
  }

  /** What the write makes of its own reference's row. */
  lemma {:induction false} WriteMovesOwn(rows: seq<Row>, w: Write)
    requires Written(rows, w).Ok?
    ensures var after, i := Written(rows, w).value, Find(rows, w.merchant, w.reference);
      && Find(after, w.merchant, w.reference) == i < |after|
      && after[i] == if i == |rows| then NewRow(w) else if w.Upsert? then Overwritten(rows[i], w) else rows[i]
  {
    WriteChangesOnePlace(rows, w);
  }

  /** Every other reference's row stays what it was. */
  lemma {:induction false} WriteSparesOthers(rows: seq<Row>, w: Write, merchant: string, reference: string)
    requires Written(rows, w).Ok? && !(w.merchant == merchant && w.reference == reference)
    ensures var after, i := Written(rows, w).value, Find(rows, merchant, reference);
      var j := Find(after, merchant, reference);
      (i < |rows| <==> j < |after|) && (i < |rows| ==> after[j] == rows[i])
  {
    WriteChangesOnePlace(rows, w);
    var after := Written(rows, w).value;
    forall k | 0 <= k < |after|
      ensures At(after[k], merchant, reference) <==> k < |rows| && At(rows[k], merchant, reference)
    {
      assert k < |rows| || k == Find(rows, w.merchant, w.reference);
    }
    if Find(rows, merchant, reference) < |rows| {
      FirstAt(after, merchant, reference, Find(rows, merchant, reference));
    }
  }

  /**
   A reference has a row exactly when some write named it. Its amount, currency and status are
   those of the last upsert, which a later event never overwrites; without one, no minor amount
   is recorded and the status is still pending.
   */
  lemma {:induction false} RowsFollowLastUpsert(ws: seq<Write>, merchant: string, reference: string)
    ensures var rows := AfterWrites(ws);
      var i := Find(rows, merchant, reference);
      && (i < |rows| <==> Mentions(ws, merchant, reference))
      && (i < |rows| ==> Follows(rows[i], LastUpsert(ws, merchant, reference)))
    decreases |ws|
  {
    if ws == [] {
    } else {
      var n := |ws| - 1;
      var init, w := ws[..n], ws[n];
      RowsFollowLastUpsert(init, merchant, reference);
      TwoWritersOneRow(init, w);
      MentionsLater(init, w, merchant, reference);
      assert ws == init + [w];
      if w.merchant == merchant && w.reference == reference {
        WriteMovesOwn(AfterWrites(init), w);
      } else {
        WriteSparesOthers(AfterWrites(init), w, merchant, reference);
      }
      if !Mentions(init, merchant, reference) {
        UnmentionedHasNoUpsert(init, merchant, reference);
      }
    }
  }

  // ----- the summary -----

  datatype GroupKey = GroupKey(currency: string, status: string)

  /** One row of the GROUP BY query; the sum is null when all its amounts are. */
  datatype Group = Group(key: GroupKey, total: Option<int>, count: int)

  datatype Line = Line(key: GroupKey, total: int, count: int)

  datatype Summary = Summary(lines: seq<Line>, totalSettled: int, totalPending: int)

  function KeyOf(row: Row): GroupKey {
    GroupKey(row.currency, row.status)
  }

  /** SUM skips nulls. */
  function MinorOf(row: Row): int {
    if row.amountMinor.Some? then row.amountMinor.value else 0
  }

  function SettledMinor(row: Row): int {
    if row.status == SETTLED then MinorOf(row) else 0
  }

  function PendingMinor(row: Row): int {
    if row.status == PENDING then MinorOf(row) else 0
  }

  function OfMerchant(rows: seq<Row>, merchant: string): seq<Row> {
    if rows == [] then []
    else
      var init := OfMerchant(rows[..|rows| - 1], merchant);
      if rows[|rows| - 1].merchant == merchant then init + [rows[|rows| - 1]] else init
  }

  function Keys(groups: seq<Group>): (ks: seq<GroupKey>)
    ensures |ks| == |groups| && forall i :: 0 <= i < |ks| ==> ks[i] == groups[i].key
  {
    seq(|groups|, i requires 0 <= i < |groups| => groups[i].key)
  }

  function OrZero(total: Option<int>): int {
    if total.Some? then total.value else 0
  }

  /** What the database may answer: the groups of the rows, each once, in any order. */
  predicate IsGroupBy(rows: seq<Row>, groups: seq<Group>) {
    && Distinct(Keys(groups)) && Covers(rows, KeyOf, Keys(groups))
    && forall i :: 0 <= i < |groups| ==>
         && OrZero(groups[i].total) == TotalFor(rows, KeyOf, MinorOf, groups[i].key)
         && groups[i].count == TotalFor(rows, KeyOf, One, groups[i].key)
  }

  /** The groups of one status, added up. */
  function SumOfStatus(groups: seq<Group>, status: string): int {
    if groups == [] then 0
    else
      SumOfStatus(groups[..|groups| - 1], status)
      + if groups[|groups| - 1].key.status == status then OrZero(groups[|groups| - 1].total) else 0
  }

  lemma {:induction false} StatusWeight(rows: seq<Row>, key: GroupKey)
    ensures TotalFor(rows, KeyOf, SettledMinor, key) == if key.status == SETTLED then TotalFor(rows, KeyOf, MinorOf, key) else 0
    ensures TotalFor(rows, KeyOf, PendingMinor, key) == if key.status == PENDING then TotalFor(rows, KeyOf, MinorOf, key) else 0
  {
    if rows == [] {
    } else {
      StatusWeight(rows[..|rows| - 1], key);
    }
  }

  lemma {:induction false} SumsAreGroupTotals(rows: seq<Row>, groups: seq<Group>)
    requires forall i :: 0 <= i < |groups| ==> OrZero(groups[i].total) == TotalFor(rows, KeyOf, MinorOf, groups[i].key)
    ensures SumOfStatus(groups, SETTLED) == TotalOfGroups(rows, KeyOf, SettledMinor, Keys(groups))
    ensures SumOfStatus(groups, PENDING) == TotalOfGroups(rows, KeyOf, PendingMinor, Keys(groups))
  {
    if groups == [] {
    } else {
      var n := |groups| - 1;
      SumsAreGroupTotals(rows, groups[..n]);
      StatusWeight(rows, groups[n].key);
      assert Keys(groups)[..n] == Keys(groups[..n]);
    }
  }

  /**
   The summary loop over the database's answer. Its totals are the direct sums over the rows of
   that status, null amounts counting as zero.
   */
  method GetSettlementSummary(rows: seq<Row>, merchant: string, answer: seq<Group>) returns (s: Summary)
    requires IsGroupBy(OfMerchant(rows, merchant), answer)
    ensures s.totalSettled == Total(OfMerchant(rows, merchant), SettledMinor)
    ensures s.totalPending == Total(OfMerchant(rows, merchant), PendingMinor)
    ensures |s.lines| == |answer| && forall i :: 0 <= i < |answer| ==>
      s.lines[i] == Line(answer[i].key, OrZero(answer[i].total), answer[i].count)
  {
    s := Summary([], 0, 0);
    var i := 0;
    while i < |answer|
      invariant 0 <= i <= |answer|
      invariant s.totalSettled == SumOfStatus(answer[..i], SETTLED)
      invariant s.totalPending == SumOfStatus(answer[..i], PENDING)
      invariant |s.lines| == i && forall k :: 0 <= k < i ==>
        s.lines[k] == Line(answer[k].key, OrZero(answer[k].total), answer[k].count)
    {
      assert answer[..i + 1][..i] == answer[..i];
      var total := OrZero(answer[i].total);
      s := s.(lines := s.lines + [Line(answer[i].key, total, answer[i].count)]);
      if answer[i].key.status == SETTLED {
        s := s.(totalSettled := s.totalSettled + total);
      } else if answer[i].key.status == PENDING {
        s := s.(totalPending := s.totalPending + total);
      }
      i := i + 1;
    }
    assert answer[..i] == answer;
    var mine := OfMerchant(rows, merchant);
    SumsAreGroupTotals(mine, answer);
    PartitionTotal(mine, KeyOf, SettledMinor, Keys(answer));
    PartitionTotal(mine, KeyOf, PendingMinor, Keys(answer));
  }

  function SumOfCounts(groups: seq<Group>): int {
    if groups == [] then 0 else SumOfCounts(groups[..|groups| - 1]) + groups[|groups| - 1].count
  }

  function SumOfTotals(groups: seq<Group>): int {
    if groups == [] then 0 else SumOfTotals(groups[..|groups| - 1]) + OrZero(groups[|groups| - 1].total)
  }

  lemma {:induction false} SumsOfGroups(rows: seq<Row>, groups: seq<Group>)
    requires forall i :: 0 <= i < |groups| ==>
      && OrZero(groups[i].total) == TotalFor(rows, KeyOf, MinorOf, groups[i].key)
      && groups[i].count == TotalFor(rows, KeyOf, One, groups[i].key)
    ensures SumOfCounts(groups) == TotalOfGroups(rows, KeyOf, One, Keys(groups))
    ensures SumOfTotals(groups) == TotalOfGroups(rows, KeyOf, MinorOf, Keys(groups))
  {
    if groups == [] {
    } else {
      var n := |groups| - 1;
      SumsOfGroups(rows, groups[..n]);
      assert Keys(groups)[..n] == Keys(groups[..n]);
    }
  }

  /** The summary's lines partition the merchant's rows: counts and totals add up to theirs. */
  lemma SummaryPartitions(rows: seq<Row>, merchant: string, answer: seq<Group>)
    requires IsGroupBy(OfMerchant(rows, merchant), answer)
    ensures SumOfCounts(answer) == |OfMerchant(rows, merchant)|
    ensures SumOfTotals(answer) == Total(OfMerchant(rows, merchant), MinorOf)
  {
    var mine := OfMerchant(rows, merchant);
    SumsOfGroups(mine, answer);
    PartitionTotal(mine, KeyOf, One, Keys(answer));
    PartitionTotal(mine, KeyOf, MinorOf, Keys(answer));
    CountIsLength(mine);
  }

  // ----- what the totals miss -----

  function SettledAmount(row: Row): int {
    if row.status == SETTLED then row.amount else 0
  }

  function PendingAmount(row: Row): int {
    if row.status == PENDING then row.amount else 0
  }

  /** The amount of a row that no upsert among the writes ever named. */
  function NeverUpserted(ws: seq<Write>): Row -> int {
    (row: Row) => if LastUpsert(ws, row.merchant, row.reference).None? then row.amount else 0
  }

  /** A row holds its minor amount if some upsert named it; otherwise it is still pending without one. */
  predicate Recorded(ws: seq<Write>, row: Row) {
    if LastUpsert(ws, row.merchant, row.reference).Some? then row.amountMinor == Some(row.amount)
    else row.amountMinor == None && row.status == PENDING
  }

  lemma {:induction false} RowIsRecorded(ws: seq<Write>, i: nat)
    requires i < |AfterWrites(ws)|
    ensures Recorded(ws, AfterWrites(ws)[i])
  {
    var rows := AfterWrites(ws);
    TwoWritersOneRow(ws, Receive("", "", "", 0, "", 0));
    assert Find(rows, rows[i].merchant, rows[i].reference) == i;
    RowsFollowLastUpsert(ws, rows[i].merchant, rows[i].reference);
  }

  lemma {:induction false} TotalsOfRecorded(ws: seq<Write>, rows: seq<Row>, merchant: string)
    requires forall i :: 0 <= i < |rows| ==> Recorded(ws, rows[i])
    ensures var mine := OfMerchant(rows, merchant);
      && Total(mine, SettledMinor) == Total(mine, SettledAmount)
      && Total(mine, PendingMinor) == Total(mine, PendingAmount) - Total(mine, NeverUpserted(ws))
  {
    if rows == [] {
    } else {
      var n := |rows| - 1;
      var init, row := OfMerchant(rows[..n], merchant), rows[n];
      TotalsOfRecorded(ws, rows[..n], merchant);
      if row.merchant == merchant {
        TotalAppend(init, row, SettledMinor);
        TotalAppend(init, row, SettledAmount);
        TotalAppend(init, row, PendingMinor);
        TotalAppend(init, row, PendingAmount);
        TotalAppend(init, row, NeverUpserted(ws));
      }
    }
  }

  /**
   What the summary's totals miss after any run of writes: nothing of the settled amounts, and of
   the pending ones exactly the amounts of the rows that no upsert ever named.
   */
  lemma {:induction false} SummaryMissesReceivedOnly(ws: seq<Write>, merchant: string)
    ensures var mine := OfMerchant(AfterWrites(ws), merchant);
      && Total(mine, SettledMinor) == Total(mine, SettledAmount)
      && Total(mine, PendingMinor) == Total(mine, PendingAmount) - Total(mine, NeverUpserted(ws))
  {
    forall i | 0 <= i < |AfterWrites(ws)| ensures Recorded(ws, AfterWrites(ws)[i]) {
      RowIsRecorded(ws, i);
    }
    TotalsOfRecorded(ws, AfterWrites(ws), merchant);
  }
}
