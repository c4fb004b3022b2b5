/**
 Domain-event handlers and replay. Each dispatch runs its handler in a transaction of its own; a
 handler that raises is logged and leaves no trace. Replay dispatches stored events again.
 */
module Events {
  import opened Common
  import Settlements

  const FAILED := "failed"
  const DISPUTED := "disputed"
  const RISK_THRESHOLD_MINOR := 1000000

  /** A timestamp in a payload: absent, well-formed, or text that does not parse. */
  datatype Stamp = Absent | At(time: int) | Malformed

  /** The payload fields that handlers read. Types whose handler only writes the audit row are `AuditOnly`. */
  datatype Event =
    | TxCreated(merchant: Option<string>, amount: int)
    | TxUpdated(merchant: Option<string>, provider: Option<string>, status: Option<string>)
    | SettlementReceived(
        merchant: Option<string>,
        aggregateId: Option<string>,
        reference: Option<string>,
        provider: Option<string>,
        amount: int,
        currency: string,
        settledAt: Stamp)
    | ReconCompleted(merchant: Option<string>, unmatched: int)
    | IncidentCreated(merchant: Option<string>)
    | AlertCreated(merchant: Option<string>)
    | DisputeCreated(transactionId: Option<string>, aggregateId: Option<string>)
    | SyncCompleted(merchant: Option<string>, provider: Option<string>)
    | AuditOnly(eventType: string)
    | Unregistered(eventType: string)

  function TypeName(e: Event): string {
    match e
    case TxCreated(_, _) => "transaction.created"
    case TxUpdated(_, _, _) => "transaction.updated"
    case SettlementReceived(_, _, _, _, _, _, _) => "settlement.received"
    case ReconCompleted(_, _) => "reconciliation.completed"
    case IncidentCreated(_) => "incident.created"
    case AlertCreated(_) => "alert.created"
    case DisputeCreated(_, _) => "dispute.created"
    case SyncCompleted(_, _) => "provider.sync.completed"
    case AuditOnly(t) => t
    case Unregistered(t) => t
  }

  datatype MetricKey = MetricKey(merchant: string, provider: string, day: int)

  /** Rows that handlers insert without looking for earlier ones. */
  datatype Insert =
    | RiskAlert(merchant: string)
    | Notice(merchant: string)
    | Incident(merchant: string)
    | Snapshot(merchant: string)

  datatype MarDay = MarDay(merchant: string, day: int)

  /** The tables that the handlers write. `failCounts` holds one row per provider and day. */
  datatype Db = Db(
    settlements: seq<Settlements.Row>,
    marDays: set<MarDay>,
    failCounts: map<MetricKey, nat>,
    txStatus: map<string, string>,
    inserts: seq<Insert>,
    audits: seq<string>)

  /** One dispatch: the event, the day, the clock, a fresh uuid, and whether the database fails under the handler. */
  datatype Dispatch = Dispatch(event: Event, day: int, now: int, uuid: string, crash: bool)

  /** The reference under which a received settlement is stored. */
  function ReferenceOf(e: Event, uuid: string): string
    requires e.SettlementReceived?
  {
    if Truthy(e.reference) then e.reference.value
    else if Truthy(e.aggregateId) then e.aggregateId.value
    else uuid
  }

  /** The settlement row that the event asks for. */
  function ReceiptOf(d: Dispatch): Settlements.Write
    requires d.event.SettlementReceived? && Truthy(d.event.merchant)
  {
    Settlements.Receive(
      d.event.merchant.value, ReferenceOf(d.event, d.uuid),
      if d.event.provider.Some? then d.event.provider.value else "",
      d.event.amount, d.event.currency,
      if d.event.settledAt.At? then d.event.settledAt.time else d.now)
  }

  function DisputedTx(e: Event): Option<string>
    requires e.DisputeCreated?
  {
    if Truthy(e.transactionId) then e.transactionId else e.aggregateId
  }

  function Count(db: Db, key: MetricKey): nat {
    if key in db.failCounts then db.failCounts[key] else 0
  }

  /** The rows an event inserts unconditionally. */
  function InsertsOf(e: Event): seq<Insert> {
    match e
    case TxCreated(m, amount) => if Truthy(m) && amount >= RISK_THRESHOLD_MINOR then [RiskAlert(m.value)] else []
    case IncidentCreated(m) => if Truthy(m) then [Notice(m.value)] else []
    case AlertCreated(m) => if Truthy(m) then [Notice(m.value)] else []
    case ReconCompleted(m, unmatched) =>
      if !Truthy(m) then [] else (if unmatched > 0 then [Incident(m.value)] else []) + [Snapshot(m.value)]
    case _ => []
  }

  /** The settlement table after a received settlement. */
  function SettlementsAfter(rows: seq<Settlements.Row>, d: Dispatch): seq<Settlements.Row> {
    if d.event.SettlementReceived? && Truthy(d.event.merchant) && !d.event.settledAt.Malformed? then
      if Settlements.Has(rows, d.event.merchant.value, ReferenceOf(d.event, d.uuid)) then rows
      else rows + [Settlements.NewRow(ReceiptOf(d))]
    else rows
  }

  function MarDaysAfter(days: set<MarDay>, d: Dispatch): set<MarDay> {
    if d.event.SettlementReceived? && Truthy(d.event.merchant) then days + {MarDay(d.event.merchant.value, d.day)}
    else days
  }

  /** The event counts one failure for this provider and day. */
  predicate CountsFor(d: Dispatch, key: MetricKey) {
    && d.event.TxUpdated? && d.event.status == Some("failed")
    && Truthy(d.event.merchant) && Truthy(d.event.provider)
    && key == MetricKey(d.event.merchant.value, d.event.provider.value, d.day)
  }

  function FailCountsAfter(counts: map<MetricKey, nat>, d: Dispatch): map<MetricKey, nat> {
    if (d.event.TxUpdated? && d.event.status == Some(FAILED)) || d.event.SyncCompleted? then
      if Truthy(d.event.merchant) && Truthy(d.event.provider) then
        var key := MetricKey(d.event.merchant.value, d.event.provider.value, d.day);
        var before := if key in counts then counts[key] else 0;
        counts[key := before + if d.event.TxUpdated? then 1 else 0]
      else counts
    else counts
  }

  function TxStatusAfter(status: map<string, string>, e: Event): map<string, string> {
    if e.DisputeCreated? && Truthy(DisputedTx(e)) && DisputedTx(e).value in status then status[DisputedTx(e).value := DISPUTED]
    else status
  }

  /** The handler runs to its end and its transaction commits. */
  predicate Completes(d: Dispatch) {
    && !d.event.Unregistered? && !d.crash
    && !(d.event.SettlementReceived? && d.event.settledAt.Malformed?)
  }

  function Handled(db: Db, d: Dispatch): Db {
    if !Completes(d) then db
    else
      Db(SettlementsAfter(db.settlements, d), MarDaysAfter(db.marDays, d), FailCountsAfter(db.failCounts, d),
         TxStatusAfter(db.txStatus, d.event), db.inserts + InsertsOf(d.event), db.audits + [TypeName(d.event)])
  }

  function HandledAll(db: Db, ds: seq<Dispatch>): Db
    decreases |ds|
  {
    if ds == [] then db else HandledAll(Handled(db, ds[0]), ds[1..])
  }

  /** How many stored events come before the first unreadable payload. */
  function Readable(stored: seq<Option<Dispatch>>): (n: nat)
    ensures n <= |stored|
  {
    if stored == [] || stored[0].None? then 0 else 1 + Readable(stored[1..])
  }

  function Payloads(stored: seq<Option<Dispatch>>): seq<Dispatch> {
    if stored == [] then []
    else if stored[0].None? then Payloads(stored[1..])
    else [stored[0].value] + Payloads(stored[1..])
  }

  lemma {:induction false} ReadableAt(stored: seq<Option<Dispatch>>, k: nat)
    requires k < |stored| && k <= Readable(stored)
    ensures stored[k].Some? <==> k < Readable(stored)
  {
    if k == 0 {
    } else {
      ReadableAt(stored[1..], k - 1);
    }
  }

  lemma {:induction false} PayloadsAppend(stored: seq<Option<Dispatch>>, last: Option<Dispatch>)
    ensures Payloads(stored + [last]) == Payloads(stored) + if last.Some? then [last.value] else []
  {
    if stored == [] {
    } else {
      assert (stored + [last])[1..] == stored[1..] + [last];
      PayloadsAppend(stored[1..], last);
    }
  }

  lemma {:induction false} HandledAppend(db: Db, ds: seq<Dispatch>, d: Dispatch)
    ensures HandledAll(db, ds + [d]) == Handled(HandledAll(db, ds), d)
    decreases |ds|
  {
    if ds == [] {
      assert [d][1..] == [];
      assert ds + [d] == [d];
    } else {
      assert (ds + [d])[1..] == ds[1..] + [d];
      HandledAppend(Handled(db, ds[0]), ds[1..], d);
    }
  }

  class EventHandlers {
    var settlements: seq<Settlements.Row>
    var marDays: set<MarDay>
    var failCounts: map<MetricKey, nat>
    var txStatus: map<string, string>
    var inserts: seq<Insert>
    var audits: seq<string>

    constructor (db: Db)
      ensures State() == db
    {
      settlements, marDays, failCounts := db.settlements, db.marDays, db.failCounts;
      txStatus, inserts, audits := db.txStatus, db.inserts, db.audits;
    }

    function State(): Db
      reads this
    {
      Db(settlements, marDays, failCounts, txStatus, inserts, audits)
    }

    method HandleTransactionUpdated(d: Dispatch)
      requires d.event.TxUpdated? && Completes(d)
      modifies this
      ensures State() == Handled(old(State()), d)
    {
      audits := audits + [TypeName(d.event)];
      assert inserts == inserts + [];
      if d.event.status == Some(FAILED) {
        if Truthy(d.event.merchant) && Truthy(d.event.provider) {
          var key := MetricKey(d.event.merchant.value, d.event.provider.value, d.day);
          if key in failCounts {
            failCounts := failCounts[key := failCounts[key] + 1];
          } else {
            failCounts := failCounts[key := 1];
          }
        }
      }
    }

    method HandleSettlementReceived(d: Dispatch)
      requires d.event.SettlementReceived? && Completes(d)
      modifies this
      ensures State() == Handled(old(State()), d)
    {
      audits := audits + [TypeName(d.event)];
      assert inserts == inserts + [];
      var reference := ReferenceOf(d.event, d.uuid);
      if Truthy(d.event.merchant) {
        var merchant := d.event.merchant.value;
        if !Settlements.Has(settlements, merchant, reference) {
          settlements := settlements + [Settlements.NewRow(ReceiptOf(d))];
        }
        if MarDay(merchant, d.day) !in marDays {
          marDays := marDays + {MarDay(merchant, d.day)};
        }
      }
    }

    method HandleDisputeCreated(d: Dispatch)
      requires d.event.DisputeCreated? && Completes(d)
      modifies this
      ensures State() == Handled(old(State()), d)
    {
      audits := audits + [TypeName(d.event)];
      assert inserts == inserts + [];
      var tx := DisputedTx(d.event);
      if Truthy(tx) && tx.value in txStatus {
        txStatus := txStatus[tx.value := DISPUTED];
      }
    }

    method HandleOther(d: Dispatch)
      requires Completes(d) && !d.event.TxUpdated? && !d.event.SettlementReceived? && !d.event.DisputeCreated?
      modifies this
      ensures State() == Handled(old(State()), d)
    {
      audits := audits + [TypeName(d.event)];
      inserts := inserts + InsertsOf(d.event);
      if d.event.SyncCompleted? && Truthy(d.event.merchant) && Truthy(d.event.provider) {
        var key := MetricKey(d.event.merchant.value, d.event.provider.value, d.day);
        if key !in failCounts {
          failCounts := failCounts[key := 0];
        } else {
          assert failCounts == failCounts[key := failCounts[key]];
        }
      }
    }

    /** Looks the handler up and runs it; an exception in it goes to the dead-letter log only. */
    method HandleEvent(d: Dispatch)
      modifies this
      ensures State() == Handled(old(State()), d)
    {
      if !Completes(d) {
        return;
      }
      if d.event.TxUpdated? {
        HandleTransactionUpdated(d);
      } else if d.event.SettlementReceived? {
        HandleSettlementReceived(d);
      } else if d.event.DisputeCreated? {
        HandleDisputeCreated(d);
      } else {
        HandleOther(d);
      }
    }

    /**
     Replays stored events in order. A stored payload that is not JSON stops the replay with an
     error; what was dispatched before it stays.
     */
    method Replay(stored: seq<Option<Dispatch>>) returns (r: Result<nat, nat>)
      modifies this
      ensures r == if Readable(stored) == |stored| then Ok(|stored|) else Err(Readable(stored))
      ensures State() == HandledAll(old(State()), Payloads(stored[..Readable(stored)]))
    {
      var count := 0;
      while count < |stored|
        invariant 0 <= count <= Readable(stored)
        invariant State() == HandledAll(old(State()), Payloads(stored[..count]))
      {
        ReadableAt(stored, count);
        if stored[count].None? {
          return Err(count);
        }
        HandleEvent(stored[count].value);
        assert stored[..count + 1] == stored[..count] + [stored[count]];
        PayloadsAppend(stored[..count], stored[count]);
        HandledAppend(old(State()), Payloads(stored[..count]), stored[count].value);
        count := count + 1;
      }
      return Ok(count);
    }
  }

  /** The handler's settlement step is the settlement table's event write, so both writers share one law. */
  lemma ReceiptIsSettlementWrite(rows: seq<Settlements.Row>, d: Dispatch)
    requires d.event.SettlementReceived? && Truthy(d.event.merchant) && Completes(d)
    ensures Settlements.Written(rows, ReceiptOf(d)) == Ok(SettlementsAfter(rows, d))
  {
  }

  // ----- what a log of dispatches adds up to -----

  function CompletedTypes(ds: seq<Dispatch>): seq<string> {
    if ds == [] then []
    else (if Completes(ds[0]) then [TypeName(ds[0].event)] else []) + CompletedTypes(ds[1..])
  }

  function CompletedInserts(ds: seq<Dispatch>): seq<Insert> {
    if ds == [] then []
    else (if Completes(ds[0]) then InsertsOf(ds[0].event) else []) + CompletedInserts(ds[1..])
  }

  function FailuresFor(ds: seq<Dispatch>, key: MetricKey): nat {
    if ds == [] then 0
    else (if Completes(ds[0]) && CountsFor(ds[0], key) then 1 else 0) + FailuresFor(ds[1..], key)
  }

  lemma OneAddsUp(db: Db, d: Dispatch, key: MetricKey)
    ensures var after := Handled(db, d);
      && after.audits == db.audits + (if Completes(d) then [TypeName(d.event)] else [])
      && after.inserts == db.inserts + (if Completes(d) then InsertsOf(d.event) else [])
      && Count(after, key) == Count(db, key) + if Completes(d) && CountsFor(d, key) then 1 else 0
  {
    if !Completes(d) {
      assert db.audits + [] == db.audits && db.inserts + [] == db.inserts;
    }
  }

  /**
   Conservation over any log: the audit trail grows by one row per completed dispatch, each
   unconditional insert happens once per completed dispatch, and a provider's failure counter
   for a day grows by exactly the failed updates handled for it on that day.
   */
  lemma {:induction false} LogAddsUp(db: Db, ds: seq<Dispatch>, key: MetricKey)
    ensures var after := HandledAll(db, ds);
      && after.audits == db.audits + CompletedTypes(ds)
      && after.inserts == db.inserts + CompletedInserts(ds)
      && Count(after, key) == Count(db, key) + FailuresFor(ds, key)
    decreases |ds|
  {
    if ds == [] {
    } else {
      var next := Handled(db, ds[0]);
      LogAddsUp(next, ds[1..], key);
      OneAddsUp(db, ds[0], key);
      var types := if Completes(ds[0]) then [TypeName(ds[0].event)] else [];
      var rows := if Completes(ds[0]) then InsertsOf(ds[0].event) else [];
      assert (db.audits + types) + CompletedTypes(ds[1..]) == db.audits + (types + CompletedTypes(ds[1..]));
      assert (db.inserts + rows) + CompletedInserts(ds[1..]) == db.inserts + (rows + CompletedInserts(ds[1..]));
    }
  }

  // ----- replay -----

  /** The event names its settlement itself, so handling it twice finds the same row. */
  predicate Stable(e: Event) {
    e.SettlementReceived? && Truthy(e.merchant) ==> Truthy(e.reference) || Truthy(e.aggregateId)
  }

  /** Handling the event again can change neither settlements nor transaction statuses. */
  predicate Absorbed(db: Db, e: Event) {
    && (e.SettlementReceived? && Truthy(e.merchant) ==>
          Stable(e) && Settlements.Has(db.settlements, e.merchant.value, ReferenceOf(e, "")))
    && (e.DisputeCreated? && Truthy(DisputedTx(e)) && DisputedTx(e).value in db.txStatus ==>
          db.txStatus[DisputedTx(e).value] == DISPUTED)
  }

  lemma HasMore(rows: seq<Settlements.Row>, row: Settlements.Row, merchant: string, reference: string)
    ensures Settlements.Has(rows + [row], merchant, reference)
       <==> Settlements.Has(rows, merchant, reference) || Settlements.At(row, merchant, reference)
  {
    var all := rows + [row];
    assert all[|rows|] == row;
    assert forall i :: 0 <= i < |rows| ==> all[i] == rows[i];
  }

  /** A handled event is absorbed, and what was absorbed stays absorbed. */
  lemma HandlingAbsorbs(db: Db, d: Dispatch, e: Event)
    requires Absorbed(db, e) || (e == d.event && Completes(d) && Stable(e))
    ensures Absorbed(Handled(db, d), e)
  {
    if Completes(d) {
      if d.event.SettlementReceived? && Truthy(d.event.merchant) {
        var row := Settlements.NewRow(ReceiptOf(d));
        if e.SettlementReceived? && Truthy(e.merchant) {
          HasMore(db.settlements, row, e.merchant.value, ReferenceOf(e, ""));
        }
      }
    }
  }

  lemma {:induction false} LogAbsorbs(db: Db, ds: seq<Dispatch>, e: Event)
    requires Absorbed(db, e) || (exists i :: 0 <= i < |ds| && ds[i].event == e && Completes(ds[i]) && Stable(e))
    ensures Absorbed(HandledAll(db, ds), e)
    decreases |ds|
  {
    if ds == [] {
    } else {
      var next := Handled(db, ds[0]);
      if Absorbed(db, e) || (ds[0].event == e && Completes(ds[0]) && Stable(e)) {
        HandlingAbsorbs(db, ds[0], e);
      } else {
        var i :| 0 <= i < |ds| && ds[i].event == e && Completes(ds[i]) && Stable(e);
        assert ds[1..][i - 1] == ds[i];
      }
      LogAbsorbs(next, ds[1..], e);
    }
  }

  lemma {:induction false} AbsorbedChangesNothing(db: Db, ds: seq<Dispatch>)
    requires forall i :: 0 <= i < |ds| ==> Absorbed(db, ds[i].event)
    ensures HandledAll(db, ds).settlements == db.settlements && HandledAll(db, ds).txStatus == db.txStatus
    decreases |ds|
  {
    if ds == [] {
    } else {
      var next := Handled(db, ds[0]);
      assert next.settlements == db.settlements;
      assert next.txStatus == db.txStatus by {
        if ds[0].event.DisputeCreated? && Truthy(DisputedTx(ds[0].event)) && DisputedTx(ds[0].event).value in db.txStatus {
          assert db.txStatus == db.txStatus[DisputedTx(ds[0].event).value := DISPUTED];
        }
      }
      forall i | 0 <= i < |ds[1..]| ensures Absorbed(next, ds[1..][i].event) {
        HandlingAbsorbs(db, ds[0], ds[i + 1].event);
      }
      AbsorbedChangesNothing(next, ds[1..]);
    }
  }

  /** Every replayed event occurs, completed, in the log; days, clocks, order and repeats may differ. */
  predicate ReplaysFrom(replay: seq<Dispatch>, log: seq<Dispatch>) {
    forall i :: 0 <= i < |replay| ==>
      exists j :: 0 <= j < |log| && log[j].event == replay[i].event && Completes(log[j])
  }

  /**
   Replaying events of a log, in any order and any number of times, changes no settlement row and
   no transaction status, provided each settlement event names its settlement.
   */
  lemma ReplayKeepsSettlementsAndDisputes(db: Db, log: seq<Dispatch>, replay: seq<Dispatch>)
    requires ReplaysFrom(replay, log) && forall i :: 0 <= i < |replay| ==> Stable(replay[i].event)
    ensures var once := HandledAll(db, log);
      && HandledAll(once, replay).settlements == once.settlements
      && HandledAll(once, replay).txStatus == once.txStatus
  {
    var once := HandledAll(db, log);
    forall i | 0 <= i < |replay| ensures Absorbed(once, replay[i].event) {
      LogAbsorbs(db, log, replay[i].event);
    }
    AbsorbedChangesNothing(once, replay);
  }

  lemma {:induction false} SettlementsOnlyGrow(db: Db, ds: seq<Dispatch>)
    ensures db.settlements <= HandledAll(db, ds).settlements
    decreases |ds|
  {
    if ds == [] {
    } else {
      SettlementsOnlyGrow(Handled(db, ds[0]), ds[1..]);
    }
  }

  predicate FreshUuids(db: Db, ds: seq<Dispatch>) {
    forall i :: 0 <= i < |ds| && ds[i].event.SettlementReceived? && Truthy(ds[i].event.merchant) ==>
      !Settlements.Has(db.settlements, ds[i].event.merchant.value, ds[i].uuid)
  }

  /** With new uuids, the first nameless settlement event of a replay adds a row. */
  lemma {:induction false} NamelessAdds(db: Db, ds: seq<Dispatch>, k: nat)
    requires k < |ds| && !Stable(ds[k].event) && Completes(ds[k]) && FreshUuids(db, ds)
    requires forall i :: 0 <= i < k ==> Absorbed(db, ds[i].event)
    ensures |HandledAll(db, ds).settlements| > |db.settlements|
    decreases |ds|
  {
    var next := Handled(db, ds[0]);
    if k == 0 {
      SettlementsOnlyGrow(next, ds[1..]);
    } else {
      assert next.settlements == db.settlements;
      forall i | 0 <= i < k - 1 ensures Absorbed(next, ds[1..][i].event) {
        HandlingAbsorbs(db, ds[0], ds[i + 1].event);
      }
      NamelessAdds(next, ds[1..], k - 1);
    }
  }

  lemma {:induction false} FirstNameless(ds: seq<Dispatch>) returns (k: nat)
    requires exists i :: 0 <= i < |ds| && !Stable(ds[i].event)
    ensures k < |ds| && !Stable(ds[k].event) && forall i :: 0 <= i < k ==> Stable(ds[i].event)
  {
    if !Stable(ds[0].event) {
      k := 0;
    } else {
      var i :| 0 <= i < |ds| && !Stable(ds[i].event);
      assert ds[1..][i - 1] == ds[i];
      k := FirstNameless(ds[1..]);
      k := k + 1;
    }
  }

  /**
   A completed replay leaves the settlement table as it was exactly when every settlement event
   replayed carries a reference or an aggregate id; a nameless one is stored again under a new uuid.
   */
  lemma ReplayIdempotentIffNamed(db: Db, log: seq<Dispatch>, replay: seq<Dispatch>)
    requires ReplaysFrom(replay, log) && forall i :: 0 <= i < |replay| ==> Completes(replay[i])
    requires FreshUuids(HandledAll(db, log), replay)
    ensures var once := HandledAll(db, log);
      HandledAll(once, replay).settlements == once.settlements <==> forall i :: 0 <= i < |replay| ==> Stable(replay[i].event)
  {
    var once := HandledAll(db, log);
    if forall i :: 0 <= i < |replay| ==> Stable(replay[i].event) {
      ReplayKeepsSettlementsAndDisputes(db, log, replay);
    } else {
      var k := FirstNameless(replay);
      forall i | 0 <= i < k ensures Absorbed(once, replay[i].event) {
        LogAbsorbs(db, log, replay[i].event);
      }
      NamelessAdds(once, replay, k);
    }
  }

  /**
   A settlement event as replay rebuilds it from its stored row: merchant and aggregate id come
   from columns that are never null, and the merchant's id is never empty.
   */
  predicate FromTable(e: Event) {
    e.SettlementReceived? ==> Truthy(e.merchant) && e.aggregateId.Some?
  }

  predicate NamedByEmptyId(e: Event) {
    e.SettlementReceived? && !Truthy(e.reference) && e.aggregateId == Some("")
  }

  /** For events rebuilt from their rows, an empty aggregate id without a reference is the only thing that breaks it. */
  lemma ReplayIdempotentIffIdsNotEmpty(db: Db, log: seq<Dispatch>, replay: seq<Dispatch>)
    requires ReplaysFrom(replay, log) && forall i :: 0 <= i < |replay| ==> Completes(replay[i]) && FromTable(replay[i].event)
    requires FreshUuids(HandledAll(db, log), replay)
    ensures var once := HandledAll(db, log);
      HandledAll(once, replay).settlements == once.settlements
      <==> forall i :: 0 <= i < |replay| ==> !NamedByEmptyId(replay[i].event)
  {
    ReplayIdempotentIffNamed(db, log, replay);
    assert forall i :: 0 <= i < |replay| ==> (Stable(replay[i].event) <==> !NamedByEmptyId(replay[i].event));
  }

  const EMPTY_DB := Db([], {}, map[], map[], [], [])

  lemma HandledOne(db: Db, d: Dispatch)
    ensures HandledAll(db, [d]) == Handled(db, d)
  {
    assert [d][1..] == [];
  }

  /** An event with an empty aggregate id and no reference, handled once and replayed, leaves two settlements. */
  lemma EmptyIdStoredTwice()
    ensures exists first: Dispatch, again: Dispatch ::
      && again.event == first.event && FromTable(first.event) && NamedByEmptyId(first.event)
      && Completes(first) && Completes(again)
      && var once := HandledAll(EMPTY_DB, [first]);
         |once.settlements| == 1 && FreshUuids(once, [again]) && |HandledAll(once, [again]).settlements| == 2
  {
    var event := SettlementReceived(Some("m"), Some(""), None, Some("p"), 100, "NGN", At(0));
    var first, again := Dispatch(event, 0, 0, "u1", false), Dispatch(event, 1, 1, "u2", false);
    HandledOne(EMPTY_DB, first);
    var once := Handled(EMPTY_DB, first);
    assert once.settlements == [Settlements.NewRow(ReceiptOf(first))];
    assert "u1" != "u2";
    HandledOne(once, again);
  }
}
