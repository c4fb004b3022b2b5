/** What handled events do, in terms of their own payload fields. */
module EventEffects {
  import opened Common
  import Settlements
  import opened Events

  // ----- which handlers complete -----

  /**
   A dispatch leaves everything as it was exactly when nobody handles its type, the database fails
   under it, or a received settlement's time does not parse; otherwise it adds one audit row.
   */
  lemma FailuresLeaveNothing(db: Db, d: Dispatch)
    ensures d.crash || d.event.Unregistered? || (d.event.SettlementReceived? && d.event.settledAt.Malformed?)
      ==> Handled(db, d) == db
    ensures !(d.crash || d.event.Unregistered? || (d.event.SettlementReceived? && d.event.settledAt.Malformed?))
      ==> |Handled(db, d).audits| == |db.audits| + 1 && db.audits <= Handled(db, d).audits
  {
  }

  /** The audit row of a completed dispatch carries the type under which its handler is registered. */
  lemma AuditsNameTypes(db: Db, d: Dispatch)
    requires Completes(d)
    ensures var name := Handled(db, d).audits[|db.audits|];
      && (d.event.TxCreated? ==> name == "transaction.created")
      && (d.event.TxUpdated? ==> name == "transaction.updated")
      && (d.event.SettlementReceived? ==> name == "settlement.received")
      && (d.event.ReconCompleted? ==> name == "reconciliation.completed")
      && (d.event.IncidentCreated? ==> name == "incident.created")
      && (d.event.AlertCreated? ==> name == "alert.created")
      && (d.event.DisputeCreated? ==> name == "dispute.created")
      && (d.event.SyncCompleted? ==> name == "provider.sync.completed")
      && (d.event.AuditOnly? ==> name == d.event.eventType)
  {
  }

  // ----- received settlements -----

  /** The payload's reference if it has one, else the aggregate id if it has one, else a new uuid. */
  predicate IsReference(e: Event, uuid: string, reference: string)
    requires e.SettlementReceived?
  {
    if e.reference.Some? && e.reference.value != "" then reference == e.reference.value
    else if e.aggregateId.Some? && e.aggregateId.value != "" then reference == e.aggregateId.value
    else reference == uuid
  }

  /**
   The row has the payload's provider, amount and currency, is pending without a minor amount, and
   has the payload's time or else the clock's.
   */
  predicate IsReceipt(row: Settlements.Row, d: Dispatch, merchant: string, reference: string)
    requires d.event.SettlementReceived?
  {
    && row.merchant == merchant && row.reference == reference
    && row.provider == (if d.event.provider.Some? then d.event.provider.value else "")
    && row.amount == d.event.amount && row.currency == d.event.currency
    && row.amountMinor == None && row.status == "pending"
    && row.settledAt == Some(if d.event.settledAt.At? then d.event.settledAt.time else d.now)
  }

  /**
   A completed settlement event with a merchant leaves the table alone if its reference has a row,
   adds exactly its own row otherwise, and marks the day; one without a merchant does neither.
   */
  lemma {:induction false} ReceiptOfPayload(db: Db, d: Dispatch, reference: string)
    requires d.event.SettlementReceived? && Completes(d) && IsReference(d.event, d.uuid, reference)
    ensures var after := Handled(db, d);
      match d.event.merchant
      case None => after.settlements == db.settlements && after.marDays == db.marDays
      case Some(m) =>
        if m == "" then after.settlements == db.settlements && after.marDays == db.marDays
        else
          && after.marDays == db.marDays + {MarDay(m, d.day)}
          && if Settlements.Has(db.settlements, m, reference) then after.settlements == db.settlements
             else
               && |after.settlements| == |db.settlements| + 1 && db.settlements <= after.settlements
               && IsReceipt(after.settlements[|db.settlements|], d, m, reference)
  {
  }

  // ----- unconditional inserts -----

  /** How many completed dispatches of the log satisfy the condition. */
  function HowMany(ds: seq<Dispatch>, condition: Event -> bool): nat {
    if ds == [] then 0
    else (if Completes(ds[0]) && condition(ds[0].event) then 1 else 0) + HowMany(ds[1..], condition)
  }

  function LargeTxOf(m: string): Event -> bool {
    (e: Event) => e.TxCreated? && e.merchant == Some(m) && e.amount >= 1000000
  }

  function UnmatchedReconOf(m: string): Event -> bool {
    (e: Event) => e.ReconCompleted? && e.merchant == Some(m) && e.unmatched > 0
  }

  function ReconOf(m: string): Event -> bool {
    (e: Event) => e.ReconCompleted? && e.merchant == Some(m)
  }

  function IncidentOrAlertOf(m: string): Event -> bool {
    (e: Event) => (e.IncidentCreated? || e.AlertCreated?) && e.merchant == Some(m)
  }

  function CountOf(rows: seq<Insert>, row: Insert): nat {
    if rows == [] then 0 else (if rows[0] == row then 1 else 0) + CountOf(rows[1..], row)
  }

  lemma {:induction false} CountConcat(a: seq<Insert>, b: seq<Insert>, row: Insert)
    ensures CountOf(a + b, row) == CountOf(a, row) + CountOf(b, row)
  {
    if a == [] {
      assert a + b == b;
    } else {
      assert (a + b)[1..] == a[1..] + b;
      CountConcat(a[1..], b, row);
    }
  }

  lemma CountSingle(x: Insert, row: Insert)
    ensures CountOf([x], row) == if x == row then 1 else 0
  {
    assert [x][1..] == [];
  }

  /** The rows that a merchant gets from the events of a log, by kind. */
  predicate Gets(rows: seq<Insert>, m: string, large: nat, unmatched: nat, recons: nat, notices: nat) {
    && CountOf(rows, RiskAlert(m)) == large && CountOf(rows, Incident(m)) == unmatched
    && CountOf(rows, Snapshot(m)) == recons && CountOf(rows, Notice(m)) == notices
  }

  function AsCount(b: bool): nat {
    if b then 1 else 0
  }

  lemma {:induction false} SingleGets(x: Insert, m: string)
    ensures Gets([x], m, AsCount(x == RiskAlert(m)), AsCount(x == Incident(m)),
                 AsCount(x == Snapshot(m)), AsCount(x == Notice(m)))
  {
    CountSingle(x, RiskAlert(m));
    CountSingle(x, Incident(m));
    CountSingle(x, Snapshot(m));
    CountSingle(x, Notice(m));
  }

  lemma {:induction false} ConcatGets(
      a: seq<Insert>, b: seq<Insert>, m: string,
      l: nat, u: nat, r: nat, n: nat, l': nat, u': nat, r': nat, n': nat)
    requires Gets(a, m, l, u, r, n) && Gets(b, m, l', u', r', n')
    ensures Gets(a + b, m, l + l', u + u', r + r', n + n')
  {
    CountConcat(a, b, RiskAlert(m));
    CountConcat(a, b, Incident(m));
    CountConcat(a, b, Snapshot(m));
    CountConcat(a, b, Notice(m));
  }

  lemma {:induction false} ReconInserts(o: string, unmatched: int, m: string)
    ensures Gets((if unmatched > 0 then [Incident(o)] else []) + [Snapshot(o)], m,
                 0, AsCount(o == m && unmatched > 0), AsCount(o == m), 0)
  {
    SingleGets(Incident(o), m);
    SingleGets(Snapshot(o), m);
    if unmatched > 0 {
      ConcatGets([Incident(o)], [Snapshot(o)], m, 0, AsCount(o == m), 0, 0, 0, 0, AsCount(o == m), 0);
    } else {
      assert [] + [Snapshot(o)] == [Snapshot(o)];
    }
  }

  lemma {:induction false} OneInserts(e: Event, m: string)
    requires m != ""
    ensures Gets(InsertsOf(e), m, AsCount(LargeTxOf(m)(e)), AsCount(UnmatchedReconOf(m)(e)),
                 AsCount(ReconOf(m)(e)), AsCount(IncidentOrAlertOf(m)(e)))
  {
    match e
    case TxCreated(o, _) =>
      if Truthy(o) {
        SingleGets(RiskAlert(o.value), m);
      }
    case IncidentCreated(o) =>
      if Truthy(o) {
        SingleGets(Notice(o.value), m);
      }
    case AlertCreated(o) =>
      if Truthy(o) {
        SingleGets(Notice(o.value), m);
      }
    case ReconCompleted(o, unmatched) =>
      if Truthy(o) {
        ReconInserts(o.value, unmatched, m);
      }
    case _ =>
  }

  lemma {:induction false} InsertsCount(ds: seq<Dispatch>, m: string)
    requires m != ""
    ensures Gets(CompletedInserts(ds), m, HowMany(ds, LargeTxOf(m)), HowMany(ds, UnmatchedReconOf(m)),
                 HowMany(ds, ReconOf(m)), HowMany(ds, IncidentOrAlertOf(m)))
  {
    if ds == [] {
    } else {
      InsertsCount(ds[1..], m);
      var e := ds[0].event;
      if Completes(ds[0]) {
        OneInserts(e, m);
        ConcatGets(
          InsertsOf(e), CompletedInserts(ds[1..]), m, AsCount(LargeTxOf(m)(e)), AsCount(UnmatchedReconOf(m)(e)),
          AsCount(ReconOf(m)(e)), AsCount(IncidentOrAlertOf(m)(e)), HowMany(ds[1..], LargeTxOf(m)),
          HowMany(ds[1..], UnmatchedReconOf(m)), HowMany(ds[1..], ReconOf(m)), HowMany(ds[1..], IncidentOrAlertOf(m)));
      } else {
        assert [] + CompletedInserts(ds[1..]) == CompletedInserts(ds[1..]);
      }
    }
  }

  /**
   Over any log a merchant gets one risk alert for each handled transaction of a million or more,
   one incident for each reconciliation with something unmatched, one snapshot for each
   reconciliation, and one notice for each incident or alert.
   */
  lemma {:induction false} InsertsAddUp(db: Db, ds: seq<Dispatch>, m: string, key: MetricKey)
    requires m != ""
    ensures var before, after := db.inserts, HandledAll(db, ds).inserts;
      && CountOf(after, RiskAlert(m)) == CountOf(before, RiskAlert(m)) + HowMany(ds, LargeTxOf(m))
      && CountOf(after, Incident(m)) == CountOf(before, Incident(m)) + HowMany(ds, UnmatchedReconOf(m))
      && CountOf(after, Snapshot(m)) == CountOf(before, Snapshot(m)) + HowMany(ds, ReconOf(m))
      && CountOf(after, Notice(m)) == CountOf(before, Notice(m)) + HowMany(ds, IncidentOrAlertOf(m))
  {
    LogAddsUp(db, ds, key);
    InsertsCount(ds, m);
    CountConcat(db.inserts, CompletedInserts(ds), RiskAlert(m));
    CountConcat(db.inserts, CompletedInserts(ds), Incident(m));
    CountConcat(db.inserts, CompletedInserts(ds), Snapshot(m));
    CountConcat(db.inserts, CompletedInserts(ds), Notice(m));
  }

  // ----- daily provider rows -----

  /**
   A completed dispatch makes sure of the day's row of a merchant's provider exactly when it is a
   failed update or a finished sync of that provider, and creates no other row; a failed update
   counts one more there, and nothing else changes any count.
   */
  lemma {:induction false} DailyRows(db: Db, d: Dispatch, key: MetricKey)
    requires Completes(d)
    ensures var after := Handled(db, d).failCounts;
      var failed := d.event.TxUpdated? && d.event.status == Some("failed")
                    && d.event.merchant == Some(key.merchant) && d.event.provider == Some(key.provider);
      var synced := d.event.SyncCompleted?
                    && d.event.merchant == Some(key.merchant) && d.event.provider == Some(key.provider);
      var mine := key.day == d.day && key.merchant != "" && key.provider != "";
      && (key in after <==> key in db.failCounts || (mine && (failed || synced)))
      && (key in after ==> after[key] == Count(db, key) + if mine && failed then 1 else 0)
  {
  }

  // ----- disputes -----

  /** The event disputes the transaction: it names it, or names none and is aggregated under it. */
  predicate Disputes(e: Event, tx: string) {
    && e.DisputeCreated? && tx != ""
    && (e.transactionId == Some(tx)
        || ((e.transactionId == None || e.transactionId == Some("")) && e.aggregateId == Some(tx)))
  }

  predicate AnyDisputes(ds: seq<Dispatch>, tx: string) {
    exists i :: 0 <= i < |ds| && Completes(ds[i]) && Disputes(ds[i].event, tx)
  }

  lemma {:induction false} AnyDisputesFirst(ds: seq<Dispatch>, tx: string)
    requires ds != []
    ensures AnyDisputes(ds, tx) <==> (Completes(ds[0]) && Disputes(ds[0].event, tx)) || AnyDisputes(ds[1..], tx)
  {
    if i :| 0 <= i < |ds| && Completes(ds[i]) && Disputes(ds[i].event, tx) {
      if i > 0 {
        assert ds[1..][i - 1] == ds[i];
      }
    }
    if i :| 0 <= i < |ds[1..]| && Completes(ds[1..][i]) && Disputes(ds[1..][i].event, tx) {
      assert ds[i + 1] == ds[1..][i];
    }
  }

  lemma {:induction false} OneDispute(db: Db, d: Dispatch, tx: string)
    requires tx in db.txStatus
    ensures var after := Handled(db, d).txStatus;
      tx in after && after[tx] == if Completes(d) && Disputes(d.event, tx) then "disputed" else db.txStatus[tx]
  {
  }

  /**
   Over any log a known transaction ends up disputed if some handled dispute is about it, and keeps
   its status otherwise.
   */
  lemma {:induction false} DisputesMark(db: Db, ds: seq<Dispatch>, tx: string)
    requires tx in db.txStatus
    ensures var after := HandledAll(db, ds).txStatus;
      tx in after && after[tx] == if AnyDisputes(ds, tx) then "disputed" else db.txStatus[tx]
    decreases |ds|
  {
    if ds == [] {
    } else {
      OneDispute(db, ds[0], tx);
      AnyDisputesFirst(ds, tx);
      DisputesMark(Handled(db, ds[0]), ds[1..], tx);
    }
  }
}
