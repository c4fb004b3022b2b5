/**
 Notification delivery: the row that a worker claims with one conditional UPDATE, sends, and
 then marks sent or reschedules with exponential back-off; and a reader who may mark the row
 read at any point in between. Times are in seconds.
 */
module Notifications {
  import opened Common

  const MAX_RETRY_COUNT := 5
  const BASE_RETRY_BACKOFF_SECONDS := 30
  const IN_APP := "in_app"

  datatype Status = Unread | Read | Pending | Sending | Sent | Failed | RetryScheduled | Abandoned

  /** What the e-mail adapter returns; a response that is not a dictionary carries no message id. */
  datatype Response = Response(text: string, messageId: Option<string>)

  /** One row of the notifications table; its id is its position in the table. */
  datatype Row = Row(
    merchant: string,
    channel: string,
    deliveryKey: Option<string>,
    status: Status,
    retryCount: nat,
    lastAttemptAt: Option<int>,
    nextRetryAt: Option<int>,
    sentAt: Option<int>,
    deliveryError: Option<string>,
    providerResponse: Option<Response>,
    channelMessageId: Option<string>)

  /**
   How the try block went: the adapter returned and the row was written, the adapter raised, or
   the adapter returned and writing the row raised, so that a delivered e-mail is rescheduled.
   */
  datatype Outcome =
    | Delivered(response: Response)
    | Raised(error: string)
    | DeliveredThenRaised(response: Response, error: string)

  // ----- what each operation does to a row -----

  function NewRow(merchant: string, channel: string, deliveryKey: Option<string>): Row {
    var status := if channel == IN_APP then Unread else Pending;
    Row(merchant, channel, deliveryKey, status, 0, None, None, None, None, None, None)
  }

  /** The WHERE clause of the claiming UPDATE. */
  predicate Claimable(row: Row, now: int) {
    && row.status in {Pending, RetryScheduled, Failed}
    && (row.nextRetryAt.None? || row.nextRetryAt.value <= now)
  }

  function Claimed(row: Row, now: int): Row {
    row.(status := Sending, lastAttemptAt := Some(now))
  }

  /** Back-off after the given number of failed attempts. */
  function RetryDelay(failures: nat): int
    requires failures >= 1
  {
    BASE_RETRY_BACKOFF_SECONDS * Pow2(failures - 1)
  }

  function Rescheduled(row: Row, error: string, now: int): Row {
    var failures := row.retryCount + 1;
    var base := row.(deliveryError := Some(error), retryCount := failures, lastAttemptAt := Some(now));
    if failures >= MAX_RETRY_COUNT then base.(status := Abandoned, nextRetryAt := None)
    else base.(status := RetryScheduled, nextRetryAt := Some(now + RetryDelay(failures)))
  }

  function SentRow(row: Row, response: Response, now: int): Row {
    row.(providerResponse := Some(response), channelMessageId := response.messageId,
         status := Sent, sentAt := Some(now), deliveryError := None, nextRetryAt := None)
  }

  function Finished(row: Row, outcome: Outcome, now: int): Row {
    match outcome
    case Delivered(response) => SentRow(row, response, now)
    case Raised(error) => Rescheduled(row, error, now)
    case DeliveredThenRaised(response, error) => Rescheduled(SentRow(row, response, now), error, now)
  }

  function MarkedRead(row: Row): Row {
    row.(status := Read)
  }

  predicate SameDelivery(row: Row, merchant: string, deliveryKey: Option<string>) {
    row.merchant == merchant && row.deliveryKey == deliveryKey
  }

  /** Position of the first row with this merchant and delivery key, or the table's length. */
  function FindDelivery(rows: seq<Row>, merchant: string, deliveryKey: Option<string>): (i: nat)
    ensures i <= |rows|
    ensures i < |rows| ==> SameDelivery(rows[i], merchant, deliveryKey)
    ensures forall j :: 0 <= j < i ==> !SameDelivery(rows[j], merchant, deliveryKey)
  {
    if rows == [] then 0
    else if SameDelivery(rows[0], merchant, deliveryKey) then 0
    else 1 + FindDelivery(rows[1..], merchant, deliveryKey)
  }

  /** The table after a creation request, and the id that the caller gets back. */
  function Created(rows: seq<Row>, merchant: string, channel: string, deliveryKey: Option<string>): (r: (seq<Row>, nat))
    ensures rows <= r.0 && r.1 < |r.0|
  {
    var found := FindDelivery(rows, merchant, deliveryKey);
    if Truthy(deliveryKey) && found < |rows| then (rows, found)
    else (rows + [NewRow(merchant, channel, deliveryKey)], |rows|)
  }

  // ----- the service -----

  /** A notification object loaded by a session; its fields are updated in place and flushed. */
  class Notification {
    const merchant: string
    const channel: string
    const deliveryKey: Option<string>
    var status: Status
    var retryCount: nat
    var lastAttemptAt: Option<int>
    var nextRetryAt: Option<int>
    var sentAt: Option<int>
    var deliveryError: Option<string>
    var providerResponse: Option<Response>
    var channelMessageId: Option<string>

    constructor Load(row: Row)
      ensures AsRow() == row
    {
      merchant, channel, deliveryKey := row.merchant, row.channel, row.deliveryKey;
      status, retryCount := row.status, row.retryCount;
      lastAttemptAt, nextRetryAt := row.lastAttemptAt, row.nextRetryAt;
      sentAt, deliveryError := row.sentAt, row.deliveryError;
      providerResponse, channelMessageId := row.providerResponse, row.channelMessageId;
    }

    /** The row that a flush writes. */
    function AsRow(): Row
      reads this
    {
      Row(merchant, channel, deliveryKey, status, retryCount, lastAttemptAt, nextRetryAt, sentAt, deliveryError,
          providerResponse, channelMessageId)
    }

    method MarkAsRead()
      modifies this
      ensures AsRow() == MarkedRead(old(AsRow())) == old(AsRow()).(status := Read)
    {
      status := Read;
    }

    method ScheduleRetry(error: string, now: int)
      modifies this
      ensures AsRow() == Rescheduled(old(AsRow()), error, now)
    {
      deliveryError := Some(error);
      retryCount := retryCount + 1;
      lastAttemptAt := Some(now);
      if retryCount >= MAX_RETRY_COUNT {
        status := Abandoned;
        nextRetryAt := None;
      } else {
        var delay := BASE_RETRY_BACKOFF_SECONDS * Pow2(retryCount - 1);
        status := RetryScheduled;
        nextRetryAt := Some(now + delay);
      }
    }

    method RecordSent(response: Response, now: int)
      modifies this
      ensures AsRow() == SentRow(old(AsRow()), response, now)
    {
      providerResponse := Some(response);
      channelMessageId := response.messageId;
      status := Sent;
      sentAt := Some(now);
      deliveryError := None;
      nextRetryAt := None;
    }

    /** The try/except around the adapter call. */
    method Finish(outcome: Outcome, now: int)
      modifies this
      ensures AsRow() == Finished(old(AsRow()), outcome, now)
    {
      match outcome
      case Delivered(response) =>
        RecordSent(response, now);
      case Raised(error) =>
        ScheduleRetry(error, now);
      case DeliveredThenRaised(response, error) =>
        RecordSent(response, now);
        ScheduleRetry(error, now);
    }
  }

  class NotificationService {
    var rows: seq<Row>

    constructor ()
      ensures rows == []
    {
      rows := [];
    }

    method CreateNotification(merchant: string, channel: string, deliveryKey: Option<string>) returns (id: nat)
      modifies this
      ensures (rows, id) == Created(old(rows), merchant, channel, deliveryKey)
    {
      if Truthy(deliveryKey) {
        var existing := FindDelivery(rows, merchant, deliveryKey);
        if existing < |rows| {
          return existing;
        }
      }
      var status := Pending;
      if channel == IN_APP {
        status := Unread;
      }
      id := |rows|;
      rows := rows + [Row(merchant, channel, deliveryKey, status, 0, None, None, None, None, None, None)];
    }

    /** The conditional UPDATE; `claimed` is "rowcount != 0". */
    method Claim(id: nat, now: int) returns (claimed: bool)
      modifies this
      ensures claimed == (id < |old(rows)| && Claimable(old(rows)[id], now))
      ensures rows == if claimed then old(rows)[id := Claimed(old(rows)[id], now)] else old(rows)
    {
      claimed := id < |rows| && Claimable(rows[id], now);
      if claimed {
        rows := rows[id := Claimed(rows[id], now)];
      }
    }

    /** One undisturbed delivery attempt. */
    method AttemptDelivery(id: nat, now: int, outcome: Outcome) returns (attempted: bool)
      modifies this
      ensures attempted == (id < |old(rows)| && Claimable(old(rows)[id], now))
      ensures rows == if attempted then old(rows)[id := Finished(Claimed(old(rows)[id], now), outcome, now)]
                      else old(rows)
    {
      attempted := Claim(id, now);
      if !attempted {
        return;
      }
      var notification := new Notification.Load(rows[id]);
      notification.Finish(outcome, now);
      rows := rows[id := notification.AsRow()];
    }
  }

  // ----- many workers and a reader -----

  /** A worker between its claim and its completion. `now` is the clock reading of its claim. */
  datatype Job = Job(id: nat, now: int)

  /**
   What happened to a notification; a completion is logged with the time of its claim. A send that
   ended in the except branch carries the adapter's response if it had reached its recipient.
   */
  datatype Event =
    | Claim(id: nat, now: int)
    | SendOk(id: nat, at: int, response: Response)
    | SendFailed(id: nat, at: int, error: string, delivered: Option<Response>)

  datatype System = System(rows: seq<Row>, jobs: map<nat, Job>, log: seq<Event>)

  datatype Step =
    | Create(merchant: string, channel: string, deliveryKey: Option<string>)
    | TryClaim(worker: nat, id: nat, now: int)
    | Complete(worker: nat, outcome: Outcome)
    | MarkRead(id: nat)

  const START := System([], map[], [])

  function Completion(job: Job, outcome: Outcome): Event {
    match outcome
    case Delivered(response) => SendOk(job.id, job.now, response)
    case Raised(error) => SendFailed(job.id, job.now, error, None)
    case DeliveredThenRaised(response, error) => SendFailed(job.id, job.now, error, Some(response))
  }

  /** One atomic step. A step that is not enabled changes nothing. */
  function Next(s: System, step: Step): System {
    match step
    case Create(merchant, channel, key) => s.(rows := Created(s.rows, merchant, channel, key).0)
    case TryClaim(w, id, now) =>
      if w !in s.jobs && id < |s.rows| && Claimable(s.rows[id], now) then
        System(s.rows[id := Claimed(s.rows[id], now)], s.jobs[w := Job(id, now)], s.log + [Claim(id, now)])
      else s
    case Complete(w, outcome) =>
      if w in s.jobs && s.jobs[w].id < |s.rows| then
        var job := s.jobs[w];
        System(
          s.rows[job.id := Finished(s.rows[job.id], outcome, job.now)],
          s.jobs - {w},
          s.log + [Completion(job, outcome)])
      else s
    case MarkRead(id) =>
      if id < |s.rows| then s.(rows := s.rows[id := MarkedRead(s.rows[id])]) else s
  }

  function Run(s: System, steps: seq<Step>): System
    decreases |steps|
  {
    if steps == [] then s else Run(Next(s, steps[0]), steps[1..])
  }

  // ----- what a log says about one notification -----

  function ClaimTimes(log: seq<Event>, id: nat): (times: seq<int>) {
    if log == [] then []
    else
      var e := log[|log| - 1];
      ClaimTimes(log[..|log| - 1], id) + if e.Claim? && e.id == id then [e.now] else []
  }

  function SuccessfulSends(log: seq<Event>, id: nat): nat {
    if log == [] then 0
    else
      var e := log[|log| - 1];
      SuccessfulSends(log[..|log| - 1], id) + if e.SendOk? && e.id == id then 1 else 0
  }

  function FailedSends(log: seq<Event>, id: nat): nat {
    if log == [] then 0
    else
      var e := log[|log| - 1];
      FailedSends(log[..|log| - 1], id) + if e.SendFailed? && e.id == id then 1 else 0
  }

  /** How many e-mails of the notification went out. */
  function EmailsOut(log: seq<Event>, id: nat): nat {
    if log == [] then 0
    else
      var e := log[|log| - 1];
      EmailsOut(log[..|log| - 1], id) + if e.id == id && (e.SendOk? || (e.SendFailed? && e.delivered.Some?)) then 1 else 0
  }

  /** How many of them the service does not know of. */
  function Unrecorded(log: seq<Event>, id: nat): nat {
    if log == [] then 0
    else
      var e := log[|log| - 1];
      Unrecorded(log[..|log| - 1], id) + if e.id == id && e.SendFailed? && e.delivered.Some? then 1 else 0
  }

  /** Each attempt waits for the back-off of the one before it: 30, 60, 120, 240 seconds. */
  predicate Spaced(times: seq<int>) {
    forall k :: 0 <= k < |times| - 1 ==> times[k + 1] >= times[k] + 30 * Pow2(k)
  }

  predicate Holds(s: System, worker: nat, id: nat) {
    worker in s.jobs && s.jobs[worker].id == id
  }

  predicate Held(s: System, id: nat) {
    exists w :: w in s.jobs && Holds(s, w, id)
  }

  // ----- the invariant -----

  /** What the row's fields say about its history. */
  predicate RowAgrees(row: Row, held: bool, times: seq<int>, oks: nat, fails: nat) {
    && fails == row.retryCount <= MAX_RETRY_COUNT
    && oks <= 1
    && fails + oks <= MAX_RETRY_COUNT
    && |times| == fails + oks + (if held then 1 else 0)
    && Spaced(times)
    && !row.status.Failed?
    && (row.status.Unread? ==> row.channel == IN_APP)
    && (row.channel == IN_APP ==> row.status in {Unread, Read} && times == [])
    && (row.status.Pending? ==> !held && oks == 0 && fails == 0 && row.nextRetryAt.None?)
    && (row.status.RetryScheduled? ==>
          && !held && oks == 0 && 1 <= fails < MAX_RETRY_COUNT
          && row.nextRetryAt == Some(times[|times| - 1] + RetryDelay(fails)))
    && (row.status.Sending? ==> held)
    && (row.status.Sent? ==> !held && oks == 1)
    && (row.status.Abandoned? ==> !held && oks == 0 && fails == MAX_RETRY_COUNT)
    && (held ==> row.status in {Sending, Read} && oks == 0 && fails < MAX_RETRY_COUNT)
  }

  ghost predicate RowInv(s: System, id: nat)
    requires id < |s.rows|
  {
    RowAgrees(s.rows[id], Held(s, id), ClaimTimes(s.log, id), SuccessfulSends(s.log, id), FailedSends(s.log, id))
  }

  /** The job's row exists, and its claim is the last one of its notification. */
  predicate JobAgrees(s: System, job: Job) {
    && job.id < |s.rows|
    && var times := ClaimTimes(s.log, job.id);
       times != [] && times[|times| - 1] == job.now
  }

  ghost predicate JobsInv(s: System) {
    && (forall w :: w in s.jobs ==> JobAgrees(s, s.jobs[w]))
    && (forall v, w :: v in s.jobs && w in s.jobs && s.jobs[v].id == s.jobs[w].id ==> v == w)
  }

  ghost predicate KeysUnique(rows: seq<Row>) {
    forall i, j :: 0 <= i < j < |rows| && Truthy(rows[j].deliveryKey) ==>
      !SameDelivery(rows[i], rows[j].merchant, rows[j].deliveryKey)
  }

  ghost predicate Inv(s: System) {
    && JobsInv(s)
    && KeysUnique(s.rows)
    && (forall id: nat :: id < |s.rows| ==> RowInv(s, id))
    && (forall id: nat :: id >= |s.rows| ==>
          ClaimTimes(s.log, id) == [] && SuccessfulSends(s.log, id) == 0 && FailedSends(s.log, id) == 0)
  }

  /** Appending one event changes the counts of its own notification only. */
  lemma LogAppend(log: seq<Event>, e: Event, id: nat)
    ensures ClaimTimes(log + [e], id) == ClaimTimes(log, id) + if e.Claim? && e.id == id then [e.now] else []
    ensures SuccessfulSends(log + [e], id) == SuccessfulSends(log, id) + if e.SendOk? && e.id == id then 1 else 0
    ensures FailedSends(log + [e], id) == FailedSends(log, id) + if e.SendFailed? && e.id == id then 1 else 0
  {
    assert (log + [e])[..|log|] == log;
  }

  /** The step neither changes the notification's row or holders nor logs anything about it. */
  ghost predicate LeavesAlone(s: System, t: System, id: nat) {
    && id < |s.rows| && id < |t.rows| && t.rows[id] == s.rows[id]
    && (Held(t, id) <==> Held(s, id))
    && ClaimTimes(t.log, id) == ClaimTimes(s.log, id)
    && SuccessfulSends(t.log, id) == SuccessfulSends(s.log, id)
    && FailedSends(t.log, id) == FailedSends(s.log, id)
  }

  lemma {:induction false} ClaimLeavesAlone(s: System, w: nat, other: nat, now: int, id: nat)
    requires id < |s.rows| && (other == id ==> !Claimable(s.rows[id], now))
    ensures LeavesAlone(s, Next(s, TryClaim(w, other, now)), id)
  {
    var t := Next(s, TryClaim(w, other, now));
    if t != s {
      LogAppend(s.log, Event.Claim(other, now), id);
      assert forall v :: v in s.jobs ==> v in t.jobs && t.jobs[v] == s.jobs[v];
      assert Held(s, id) ==> Held(t, id) by {
        if v :| v in s.jobs && Holds(s, v, id) {
          assert v in t.jobs && Holds(t, v, id);
        }
      }
    }
  }

  lemma {:induction false} CompletionLeavesAlone(s: System, w: nat, outcome: Outcome, id: nat)
    requires id < |s.rows| && !Holds(s, w, id)
    ensures LeavesAlone(s, Next(s, Complete(w, outcome)), id)
  {
    var t := Next(s, Complete(w, outcome));
    if t != s {
      LogAppend(s.log, Completion(s.jobs[w], outcome), id);
      assert Held(s, id) ==> Held(t, id) by {
        if v :| v in s.jobs && Holds(s, v, id) {
          assert v in t.jobs && Holds(t, v, id);
        }
      }
    }
  }

  /** A row keeps agreeing with its history if neither the row nor its history changed. */
  lemma Untouched(s: System, t: System, id: nat)
    requires LeavesAlone(s, t, id) && RowInv(s, id)
    ensures RowInv(t, id)
  {
  }

  lemma CreateKeepsInv(s: System, merchant: string, channel: string, key: Option<string>)
    requires Inv(s)
    ensures Inv(Next(s, Create(merchant, channel, key)))
  {
    var t := Next(s, Create(merchant, channel, key));
    forall id: nat | id < |t.rows| ensures RowInv(t, id) {
      assert Held(t, id) <==> Held(s, id);
      if id < |s.rows| {
        assert RowInv(s, id);
      }
    }
  }

  lemma MarkReadKeepsInv(s: System, id: nat)
    requires Inv(s) && id < |s.rows|
    ensures Inv(Next(s, MarkRead(id)))
  {
    var t := Next(s, MarkRead(id));
    forall j: nat | j < |t.rows| ensures RowInv(t, j) {
      assert Held(t, j) <==> Held(s, j);
      assert RowInv(s, j);
      if j != id {
        Untouched(s, t, j);
      }
    }
  }

  /** A claim that the row allows comes late enough, and puts the row in its worker's hands. */
  lemma ClaimAgrees(row: Row, times: seq<int>, oks: nat, fails: nat, now: int)
    requires RowAgrees(row, false, times, oks, fails) && Claimable(row, now)
    ensures RowAgrees(Claimed(row, now), true, times + [now], oks, fails)
  {
    var later := times + [now];
    forall k | 0 <= k < |later| - 1
      ensures later[k + 1] >= later[k] + 30 * Pow2(k)
    {
      if k < |times| - 1 {
        assert times[k + 1] >= times[k] + 30 * Pow2(k);
      } else {
        assert RetryDelay(fails) == 30 * Pow2(k);
      }
    }
  }

  lemma ClaimKeepsRow(s: System, w: nat, id: nat, now: int, j: nat)
    requires Inv(s) && w !in s.jobs && id < |s.rows| && Claimable(s.rows[id], now) && j < |s.rows|
    ensures RowInv(Next(s, TryClaim(w, id, now)), j)
  {
    var t := Next(s, TryClaim(w, id, now));
    assert RowInv(s, j);
    if j == id {
      LogAppend(s.log, Event.Claim(id, now), id);
      assert Holds(t, w, id);
      assert !Held(s, id);
      ClaimAgrees(s.rows[id], ClaimTimes(s.log, id), SuccessfulSends(s.log, id), FailedSends(s.log, id), now);
    } else {
      ClaimLeavesAlone(s, w, id, now, j);
      Untouched(s, t, j);
    }
  }

  lemma ClaimableIsFree(s: System, id: nat, now: int)
    requires Inv(s) && id < |s.rows| && Claimable(s.rows[id], now)
    ensures forall v :: v in s.jobs ==> s.jobs[v].id != id
  {
    assert RowInv(s, id);
    assert forall v :: v in s.jobs && s.jobs[v].id == id ==> Holds(s, v, id);
  }

  lemma {:induction false} ClaimKeepsOtherJob(s: System, w: nat, id: nat, now: int, job: Job)
    requires JobAgrees(s, job) && job.id != id && w !in s.jobs && id < |s.rows| && Claimable(s.rows[id], now)
    ensures JobAgrees(Next(s, TryClaim(w, id, now)), job)
  {
    LogAppend(s.log, Event.Claim(id, now), job.id);
  }

  lemma {:induction false} ClaimMakesJob(s: System, w: nat, id: nat, now: int)
    requires w !in s.jobs && id < |s.rows| && Claimable(s.rows[id], now)
    ensures JobAgrees(Next(s, TryClaim(w, id, now)), Job(id, now))
  {
    LogAppend(s.log, Event.Claim(id, now), id);
  }

  lemma {:induction false} ClaimKeepsJobs(s: System, w: nat, id: nat, now: int)
    requires Inv(s) && w !in s.jobs && id < |s.rows| && Claimable(s.rows[id], now)
    ensures JobsInv(Next(s, TryClaim(w, id, now)))
  {
    var t := Next(s, TryClaim(w, id, now));
    ClaimableIsFree(s, id, now);
    ClaimMakesJob(s, w, id, now);
    forall v | v in t.jobs ensures JobAgrees(t, t.jobs[v]) {
      if v != w {
        ClaimKeepsOtherJob(s, w, id, now, s.jobs[v]);
      }
    }
  }

  lemma ClaimKeepsInv(s: System, w: nat, id: nat, now: int)
    requires Inv(s) && w !in s.jobs && id < |s.rows| && Claimable(s.rows[id], now)
    ensures Inv(Next(s, TryClaim(w, id, now)))
  {
    ClaimKeepsJobs(s, w, id, now);
    forall j: nat | j < |s.rows| {
      ClaimKeepsRow(s, w, id, now, j);
    }
    forall j: nat | j >= |s.rows|
      ensures var log := Next(s, TryClaim(w, id, now)).log;
        ClaimTimes(log, j) == [] && SuccessfulSends(log, j) == 0 && FailedSends(log, j) == 0
    {
      LogAppend(s.log, Event.Claim(id, now), j);
    }
  }

  /** What a completion adds to the recorded successes, and to the failures. */
  function OksOf(outcome: Outcome): nat {
    if outcome.Delivered? then 1 else 0
  }

  function FailsOf(outcome: Outcome): nat {
    if outcome.Delivered? then 0 else 1
  }

  /** A completion takes the row out of its worker's hands. */
  lemma {:induction false} CompleteAgrees(row: Row, times: seq<int>, oks: nat, fails: nat, outcome: Outcome, now: int)
    requires RowAgrees(row, true, times, oks, fails) && times[|times| - 1] == now
    ensures RowAgrees(Finished(row, outcome, now), false, times, oks + OksOf(outcome), fails + FailsOf(outcome))
  {
  }

  lemma CompletionFrees(s: System, w: nat, outcome: Outcome)
    requires JobsInv(s) && w in s.jobs
    ensures !Held(Next(s, Complete(w, outcome)), s.jobs[w].id)
  {
    var t := Next(s, Complete(w, outcome));
    assert forall v :: v in t.jobs ==> v in s.jobs && t.jobs[v] == s.jobs[v];
  }

  /** A completion logs one success or one failure of its notification, and no claim. */
  lemma {:induction false} CompletionLogs(s: System, w: nat, outcome: Outcome)
    requires w in s.jobs && s.jobs[w].id < |s.rows|
    ensures var id, log := s.jobs[w].id, Next(s, Complete(w, outcome)).log;
      && ClaimTimes(log, id) == ClaimTimes(s.log, id)
      && SuccessfulSends(log, id) == SuccessfulSends(s.log, id) + OksOf(outcome)
      && FailedSends(log, id) == FailedSends(s.log, id) + FailsOf(outcome)
  {
    LogAppend(s.log, Completion(s.jobs[w], outcome), s.jobs[w].id);
  }

  lemma {:induction false} FreeRowInv(t: System, id: nat, times: seq<int>, oks: nat, fails: nat)
    requires id < |t.rows| && !Held(t, id) && RowAgrees(t.rows[id], false, times, oks, fails)
    requires ClaimTimes(t.log, id) == times && SuccessfulSends(t.log, id) == oks && FailedSends(t.log, id) == fails
    ensures RowInv(t, id)
  {
  }

  lemma {:induction false} CompletionRow(s: System, w: nat, outcome: Outcome)
    requires w in s.jobs && s.jobs[w].id < |s.rows|
    ensures var id, t := s.jobs[w].id, Next(s, Complete(w, outcome));
      |t.rows| == |s.rows| && t.rows[id] == Finished(s.rows[id], outcome, s.jobs[w].now)
  {
  }

  lemma {:induction false} CompleteFreesRow(s: System, w: nat, outcome: Outcome)
    requires JobsInv(s) && w in s.jobs && RowInv(s, s.jobs[w].id)
    ensures RowInv(Next(s, Complete(w, outcome)), s.jobs[w].id)
  {
    var id, now := s.jobs[w].id, s.jobs[w].now;
    var times, oks, fails := ClaimTimes(s.log, id), SuccessfulSends(s.log, id), FailedSends(s.log, id);
    assert JobAgrees(s, s.jobs[w]);
    assert Held(s, id) by {
      assert Holds(s, w, id);
    }
    CompleteAgrees(s.rows[id], times, oks, fails, outcome, now);
    CompletionFrees(s, w, outcome);
    CompletionLogs(s, w, outcome);
    CompletionRow(s, w, outcome);
    FreeRowInv(Next(s, Complete(w, outcome)), id, times, oks + OksOf(outcome), fails + FailsOf(outcome));
  }

  lemma CompleteKeepsRow(s: System, w: nat, outcome: Outcome, j: nat)
    requires Inv(s) && w in s.jobs && j < |s.rows|
    ensures RowInv(Next(s, Complete(w, outcome)), j)
  {
    if j == s.jobs[w].id {
      CompleteFreesRow(s, w, outcome);
    } else {
      CompletionLeavesAlone(s, w, outcome, j);
      Untouched(s, Next(s, Complete(w, outcome)), j);
    }
  }

  lemma KeysSurviveUpdate(rows: seq<Row>, id: nat, row: Row)
    requires KeysUnique(rows) && id < |rows|
    requires row.merchant == rows[id].merchant && row.deliveryKey == rows[id].deliveryKey
    ensures KeysUnique(rows[id := row])
  {
    var after := rows[id := row];
    assert forall i :: 0 <= i < |rows| ==>
      after[i].merchant == rows[i].merchant && after[i].deliveryKey == rows[i].deliveryKey;
  }

  lemma CompleteKeepsInv(s: System, w: nat, outcome: Outcome)
    requires Inv(s) && w in s.jobs
    ensures Inv(Next(s, Complete(w, outcome)))
  {
    var t := Next(s, Complete(w, outcome));
    forall j: nat | j < |s.rows| {
      CompleteKeepsRow(s, w, outcome, j);
    }
    forall j: nat
      ensures ClaimTimes(t.log, j) == ClaimTimes(s.log, j)
      ensures j >= |s.rows| ==> SuccessfulSends(t.log, j) == 0 && FailedSends(t.log, j) == 0
    {
      LogAppend(s.log, Completion(s.jobs[w], outcome), j);
    }
    KeysSurviveUpdate(s.rows, s.jobs[w].id, t.rows[s.jobs[w].id]);
  }

  /** Every step of every party keeps the invariant. */
  lemma StepKeepsInv(s: System, step: Step)
    requires Inv(s)
    ensures Inv(Next(s, step))
  {
    match step
    case Create(merchant, channel, key) => CreateKeepsInv(s, merchant, channel, key);
    case TryClaim(w, id, now) =>
      if w !in s.jobs && id < |s.rows| && Claimable(s.rows[id], now) {
        ClaimKeepsInv(s, w, id, now);
      }
    case Complete(w, outcome) =>
      if w in s.jobs {
        CompleteKeepsInv(s, w, outcome);
      }
    case MarkRead(id) =>
      if id < |s.rows| {
        MarkReadKeepsInv(s, id);
      }
  }

  lemma {:induction false} RunKeepsInv(s: System, steps: seq<Step>)
    requires Inv(s)
    ensures Inv(Run(s, steps))
    decreases |steps|
  {
    if steps == [] {
    } else {
      StepKeepsInv(s, steps[0]);
      RunKeepsInv(Next(s, steps[0]), steps[1..]);
    }
  }

  lemma ReachableInv(steps: seq<Step>)
    ensures Inv(Run(START, steps))
  {
    assert Inv(START);
    RunKeepsInv(START, steps);
  }

  lemma RunOne(s: System, step: Step)
    ensures Run(s, [step]) == Next(s, step)
  {
    assert [step][1..] == [];
    assert Run(s, [step]) == Run(Next(s, step), []);
  }

  // ----- main results -----

  lemma {:induction false} EmailsAreSends(log: seq<Event>, id: nat)
    ensures EmailsOut(log, id) == SuccessfulSends(log, id) + Unrecorded(log, id)
    ensures Unrecorded(log, id) <= FailedSends(log, id)
  {
    if log == [] {
    } else {
      EmailsAreSends(log[..|log| - 1], id);
    }
  }

  /**
   Whatever the interleaving of workers, creators and readers: two workers never hold the same
   notification, at most five sends are ever begun and at most one is recorded as successful; the
   e-mails that went out are that one and those whose recording failed, at most five in all; and
   an in-app notification is never claimed.
   */
  lemma DeliverySafety(steps: seq<Step>, id: nat)
    ensures var s := Run(START, steps);
      && (forall v, w :: Holds(s, v, id) && Holds(s, w, id) ==> v == w)
      && SuccessfulSends(s.log, id) <= 1
      && SuccessfulSends(s.log, id) + FailedSends(s.log, id) <= |ClaimTimes(s.log, id)| <= 5
      && EmailsOut(s.log, id) == SuccessfulSends(s.log, id) + Unrecorded(s.log, id) <= 5
      && (id < |s.rows| && s.rows[id].channel == "in_app" ==> ClaimTimes(s.log, id) == [])
  {
    ReachableInv(steps);
    var s := Run(START, steps);
    EmailsAreSends(s.log, id);
    if id < |s.rows| {
      assert RowInv(s, id);
    }
  }

  /** In a run, the k-th and the next claim are at least 30*2^k seconds apart; the fifth comes 450 s after the first. */
  lemma BackoffSpacing(steps: seq<Step>, id: nat)
    ensures var times := ClaimTimes(Run(START, steps).log, id);
      Spaced(times) && (|times| == 5 ==> times[4] >= times[0] + 450)
  {
    ReachableInv(steps);
    var s := Run(START, steps);
    if id < |s.rows| {
      assert RowInv(s, id);
      var times := ClaimTimes(s.log, id);
      if |times| == 5 {
        assert Pow2(0) == 1 && Pow2(1) == 2 && Pow2(2) == 4 && Pow2(3) == 8;
        assert times[1] >= times[0] + 30 * Pow2(0);
        assert times[2] >= times[1] + 30 * Pow2(1);
        assert times[3] >= times[2] + 30 * Pow2(2);
        assert times[4] >= times[3] + 30 * Pow2(3);
      }
    }
  }

  /** Claims and completions of one notification logged so far. */
  function DeliverySteps(s: System, id: nat): nat {
    |ClaimTimes(s.log, id)| + SuccessfulSends(s.log, id) + FailedSends(s.log, id)
  }

  /** The row's status allows no claim. */
  predicate Settled(row: Row) {
    row.status in {Sent, Read, Abandoned, Unread}
  }

  /** Delivery of the notification is over: no claim is possible and no completion is outstanding. */
  ghost predicate Terminal(s: System, id: nat) {
    id < |s.rows| && Settled(s.rows[id]) && !Held(s, id)
  }

  predicate IsRead(s: System, id: nat) {
    id < |s.rows| && s.rows[id].status.Read?
  }

  /** No step of any party takes up a delivery that is over, and none of them lifts a read mark then. */
  lemma {:induction false} TerminalStep(s: System, step: Step, id: nat)
    requires Terminal(s, id)
    ensures var t := Next(s, step);
      && Terminal(t, id) && DeliverySteps(t, id) == DeliverySteps(s, id)
      && (IsRead(s, id) ==> IsRead(t, id))
  {
    match step
    case Create(_, _, _) => assert Held(Next(s, step), id) <==> Held(s, id);
    case MarkRead(_) => assert Held(Next(s, step), id) <==> Held(s, id);
    case TryClaim(w, other, now) => ClaimLeavesAlone(s, w, other, now, id);
    case Complete(w, outcome) => CompletionLeavesAlone(s, w, outcome, id);
  }

  /** A delivery that is over stays over: no continuation claims, sends or completes it again. */
  lemma {:induction false} TerminalStays(s: System, steps: seq<Step>, id: nat)
    requires Terminal(s, id)
    ensures var t := Run(s, steps);
      && Terminal(t, id) && DeliverySteps(t, id) == DeliverySteps(s, id)
      && (IsRead(s, id) ==> IsRead(t, id))
    decreases |steps|
  {
    if steps == [] {
    } else {
      TerminalStep(s, steps[0], id);
      TerminalStays(Next(s, steps[0]), steps[1..], id);
    }
  }

  /** Ten delivery steps are the most there can be, and after them the delivery is over. */
  lemma {:induction false} StepsBounded(s: System, id: nat)
    requires Inv(s) && id < |s.rows|
    ensures DeliverySteps(s, id) <= 10
    ensures DeliverySteps(s, id) == 10 ==> Terminal(s, id)
  {
    assert RowInv(s, id);
  }

  /** Some worker number is not in use. */
  lemma {:induction false} FreeWorker(used: set<nat>) returns (w: nat)
    ensures w !in used && forall v :: v in used ==> v < w
    decreases used
  {
    if v :| v in used {
      var rest := FreeWorker(used - {v});
      w := if rest > v then rest else v + 1;
      assert forall u :: u in used ==> u == v || u in used - {v};
    } else {
      w := 0;
    }
  }

  lemma {:induction false} CompletionCounts(s: System, w: nat, id: nat)
    requires id < |s.rows| && Holds(s, w, id)
    ensures DeliverySteps(Next(s, Complete(w, Raised(""))), id) == DeliverySteps(s, id) + 1
  {
    LogAppend(s.log, Completion(s.jobs[w], Raised("")), id);
  }

  lemma {:induction false} ClaimCounts(s: System, w: nat, id: nat, now: int)
    requires id < |s.rows| && w !in s.jobs && Claimable(s.rows[id], now)
    ensures DeliverySteps(Next(s, TryClaim(w, id, now)), id) == DeliverySteps(s, id) + 1
  {
    LogAppend(s.log, Event.Claim(id, now), id);
  }

  /** When a row that is neither settled nor held can be claimed. */
  lemma {:induction false} DueTime(s: System, id: nat) returns (due: int)
    requires Inv(s) && id < |s.rows| && !Settled(s.rows[id]) && !Held(s, id)
    ensures Claimable(s.rows[id], due)
  {
    assert RowInv(s, id);
    var row := s.rows[id];
    due := if row.nextRetryAt.None? then 0 else row.nextRetryAt.value;
  }

  /** As long as the delivery is not over, a claim or a completion of it is possible, now or once its retry is due. */
  lemma {:induction false} DeliveryCanStep(s: System, id: nat) returns (step: Step)
    requires Inv(s) && id < |s.rows| && !Terminal(s, id)
    ensures step.TryClaim? || step.Complete?
    ensures DeliverySteps(Next(s, step), id) == DeliverySteps(s, id) + 1
  {
    if w :| w in s.jobs && Holds(s, w, id) {
      step := Complete(w, Raised(""));
      CompletionCounts(s, w, id);
    } else {
      var due := DueTime(s, id);
      var free := FreeWorker(s.jobs.Keys);
      step := TryClaim(free, id, due);
      ClaimCounts(s, free, id, due);
    }
  }

  /** From every state some run of claims and completions brings the delivery to its end. */
  lemma {:induction false} DeliveryCanEnd(s: System, id: nat) returns (steps: seq<Step>)
    requires Inv(s) && id < |s.rows|
    ensures Terminal(Run(s, steps), id)
    decreases 10 - DeliverySteps(s, id)
  {
    steps := [];
    StepsBounded(s, id);
    if !Terminal(s, id) {
      var step := DeliveryCanStep(s, id);
      StepKeepsInv(s, step);
      var rest := DeliveryCanEnd(Next(s, step), id);
      steps := [step] + rest;
      assert steps[1..] == rest;
    }
  }

  /**
   Deliveries end. A run holds at most ten delivery steps of a notification. As long as its
   delivery is not over, another one is possible and an end can be reached; after ten it is over;
   and once over, no continuation of the run adds a step.
   */
  lemma DeliveryEnds(steps: seq<Step>, id: nat)
    requires id < |Run(START, steps).rows|
    ensures var s := Run(START, steps);
      && DeliverySteps(s, id) <= 10
      && (DeliverySteps(s, id) == 10 ==> Terminal(s, id))
      && (Terminal(s, id) <==> forall more :: DeliverySteps(Run(s, more), id) == DeliverySteps(s, id))
      && exists more :: Terminal(Run(s, more), id)
  {
    ReachableInv(steps);
    var s := Run(START, steps);
    StepsBounded(s, id);
    if Terminal(s, id) {
      forall more ensures DeliverySteps(Run(s, more), id) == DeliverySteps(s, id) {
        TerminalStays(s, more, id);
      }
    } else {
      var step := DeliveryCanStep(s, id);
      RunOne(s, step);
      assert DeliverySteps(Run(s, [step]), id) != DeliverySteps(s, id);
    }
    var more := DeliveryCanEnd(s, id);
  }

  /** A non-empty delivery key names at most one notification of a merchant. */
  lemma DeliveryKeysUnique(steps: seq<Step>, i: nat, j: nat)
    requires var rows := Run(START, steps).rows;
      && i < |rows| && j < |rows| && Truthy(rows[i].deliveryKey)
      && SameDelivery(rows[j], rows[i].merchant, rows[i].deliveryKey)
    ensures i == j
  {
    ReachableInv(steps);
  }

  /** Creating again with the same key gives back the same notification and adds nothing. */
  lemma CreateIsIdempotent(rows: seq<Row>, merchant: string, channel: string, channel': string, key: Option<string>)
    requires Truthy(key)
    ensures var (once, id) := Created(rows, merchant, channel, key);
      Created(once, merchant, channel', key) == (once, id)
  {
    var (once, id) := Created(rows, merchant, channel, key);
    var again := FindDelivery(once, merchant, key);
    if FindDelivery(rows, merchant, key) == |rows| {
      assert SameDelivery(once[|rows|], merchant, key);
      assert forall j :: 0 <= j < |rows| ==> once[j] == rows[j];
    }
  }

  /** An undisturbed delivery attempt of the service is a claim and a completion of one worker. */
  lemma AttemptIsTwoSteps(s: System, w: nat, id: nat, now: int, outcome: Outcome)
    requires w !in s.jobs && id < |s.rows|
    ensures Run(s, [TryClaim(w, id, now), Complete(w, outcome)]).rows
         == if Claimable(s.rows[id], now) then s.rows[id := Finished(Claimed(s.rows[id], now), outcome, now)] else s.rows
  {
    var claim, complete := TryClaim(w, id, now), Complete(w, outcome);
    assert [claim, complete][1..] == [complete] && [complete][1..] == [];
    var t := Next(s, claim);
    assert Run(s, [claim, complete]) == Run(t, [complete]);
    assert Run(t, [complete]) == Run(Next(t, complete), []);
  }

  // ----- when a read mark survives -----

  ghost predicate ReadForever(s: System, id: nat) {
    forall steps :: IsRead(Run(s, steps), id)
  }

  lemma {:induction false} ReadForeverIffFree(s: System, id: nat)
    requires Inv(s) && IsRead(s, id)
    ensures ReadForever(s, id) <==> !Held(s, id)
  {
    if w :| w in s.jobs && Holds(s, w, id) {
      var late := Complete(w, Raised(""));
      RunOne(s, late);
      assert !IsRead(Run(s, [late]), id);
    } else {
      forall steps ensures IsRead(Run(s, steps), id) {
        TerminalStays(s, steps, id);
      }
    }
  }

  /**
   A read mark is not final: the completion of a send that was in flight overwrites it. It
   survives every continuation exactly when no worker held the notification.
   */
  lemma ReadMarkSurvives(before: seq<Step>, id: nat)
    requires IsRead(Run(START, before), id)
    ensures var s := Run(START, before);
      ReadForever(s, id) <==> !Held(s, id)
  {
    ReachableInv(before);
    ReadForeverIffFree(Run(START, before), id);
  }

  /**
   What the reader sees beforehand decides it: a mark set on a row that is not read yet stays
   exactly when the row was not being sent.
   */
  lemma ReadMarkSurvivesIffNotSending(before: seq<Step>, id: nat)
    requires var s := Run(START, before); id < |s.rows| && !IsRead(s, id)
    ensures var s := Run(START, before);
      ReadForever(Next(s, MarkRead(id)), id) <==> !s.rows[id].status.Sending?
  {
    ReachableInv(before);
    var s := Run(START, before);
    assert RowInv(s, id);
    var t := Next(s, MarkRead(id));
    assert Held(t, id) <==> Held(s, id);
    MarkReadKeepsInv(s, id);
    ReadForeverIffFree(t, id);
  }

  lemma RunThree(s: System, a: Step, b: Step, c: Step)
    ensures Run(s, [a, b, c]) == Next(Next(Next(s, a), b), c)
  {
    assert [a, b, c][1..] == [b, c] && [b, c][1..] == [c];
    var s1 := Next(s, a);
    var s2 := Next(s1, b);
    assert Run(s, [a, b, c]) == Run(s1, [b, c]);
    assert Run(s1, [b, c]) == Run(s2, [c]);
    assert Run(s2, [c]) == Run(Next(s2, c), [c][1..]);
  }

  const RESPONSE := Response("ok", Some("1"))

  /** A worker claims the only notification at time 0, and its reader marks it read. */
  function MarkedInFlight(): System {
    var row := NewRow("m", "email", None).(status := Read, lastAttemptAt := Some(0));
    System([row], map[0 := Job(0, 0)], [Event.Claim(0, 0)])
  }

  lemma MarkedInFlightReached()
    ensures Run(START, [Create("m", "email", None), TryClaim(0, 0, 0), MarkRead(0)]) == MarkedInFlight()
  {
    var steps := [Create("m", "email", None), TryClaim(0, 0, 0), MarkRead(0)];
    RunThree(START, steps[0], steps[1], steps[2]);
    var created := Next(START, steps[0]);
    assert created.rows == [NewRow("m", "email", None)];
    assert Next(created, steps[1]).rows == [NewRow("m", "email", None).(status := Sending, lastAttemptAt := Some(0))];
    assert Next(created, steps[1]).jobs == map[0 := Job(0, 0)];
    assert Next(created, steps[1]).log == [Event.Claim(0, 0)];
  }

  /** Its send fails, is rescheduled, and the next one succeeds. */
  lemma SentAgain()
    ensures var retried := [Complete(0, Raised("smtp")), TryClaim(1, 0, 30), Complete(1, Delivered(RESPONSE))];
      var t := Run(MarkedInFlight(), retried);
      |t.rows| == 1 && t.rows[0].status.Sent? && t.rows[0].retryCount == 1
  {
    var s := MarkedInFlight();
    var steps := [Complete(0, Raised("smtp")), TryClaim(1, 0, 30), Complete(1, Delivered(RESPONSE))];
    RunThree(s, steps[0], steps[1], steps[2]);
    var failed := Next(s, steps[0]);
    assert RetryDelay(1) == 30;
    assert |failed.rows| == 1 && failed.rows[0].status.RetryScheduled? && failed.rows[0].nextRetryAt == Some(30);
    assert failed.rows[0].retryCount == 1 && failed.jobs == map[];
    var claimed := Next(failed, steps[1]);
    assert |claimed.rows| == 1 && claimed.rows[0].retryCount == 1 && claimed.jobs == map[1 := Job(0, 30)];
  }

  /** A notification can be marked read and still be sent again afterwards. */
  lemma ReadMarkLost()
    ensures exists before, after ::
      var s := Run(START, before);
      IsRead(s, 0) && var t := Run(s, after); |t.rows| == 1 && t.rows[0].status.Sent? && t.rows[0].retryCount == 1
  {
    MarkedInFlightReached();
    SentAgain();
    var before := [Create("m", "email", None), TryClaim(0, 0, 0), MarkRead(0)];
    assert IsRead(Run(START, before), 0);
  }

  lemma {:induction false} RunConcat(s: System, first: seq<Step>, second: seq<Step>)
    ensures Run(s, first + second) == Run(Run(s, first), second)
    decreases |first|
  {
    if first == [] {
      assert first + second == second;
    } else {
      assert (first + second)[1..] == first[1..] + second;
      RunConcat(Next(s, first[0]), first[1..], second);
    }
  }

  /** An e-mail goes out, writing that down fails, and the notification waits for its retry. */
  function SentUnrecorded(): System {
    var row := SentRow(NewRow("m", "email", None), RESPONSE, 0).(
      status := RetryScheduled, retryCount := 1, lastAttemptAt := Some(0), nextRetryAt := Some(30),
      deliveryError := Some("db"));
    System([row], map[], [Event.Claim(0, 0), SendFailed(0, 0, "db", Some(RESPONSE))])
  }

  lemma SentUnrecordedReached()
    ensures Run(START, [Create("m", "email", None), TryClaim(0, 0, 0), Complete(0, DeliveredThenRaised(RESPONSE, "db"))])
         == SentUnrecorded()
  {
    var steps := [Create("m", "email", None), TryClaim(0, 0, 0), Complete(0, DeliveredThenRaised(RESPONSE, "db"))];
    RunThree(START, steps[0], steps[1], steps[2]);
    var claimed := Next(Next(START, steps[0]), steps[1]);
    assert claimed.rows == [NewRow("m", "email", None).(status := Sending, lastAttemptAt := Some(0))];
    assert claimed.jobs == map[0 := Job(0, 0)] && claimed.log == [Event.Claim(0, 0)];
    assert RetryDelay(1) == 30;
    var end := Next(claimed, steps[2]);
    assert end.rows == SentUnrecorded().rows && end.jobs == map[] && end.log == SentUnrecorded().log;
  }

  /** Two e-mails of one notification do go out when writing down the first one fails. */
  lemma SentTwice()
    ensures exists steps :: EmailsOut(Run(START, steps).log, 0) == 2
  {
    var before := [Create("m", "email", None), TryClaim(0, 0, 0), Complete(0, DeliveredThenRaised(RESPONSE, "db"))];
    var after := [TryClaim(0, 0, 30), Complete(0, Delivered(RESPONSE))];
    SentUnrecordedReached();
    RunConcat(START, before, after);
    RunConcat(SentUnrecorded(), [after[0]], [after[1]]);
    assert after == [after[0]] + [after[1]];
    var claimed := Next(SentUnrecorded(), after[0]);
    RunOne(SentUnrecorded(), after[0]);
    RunOne(claimed, after[1]);
    assert claimed.jobs == map[0 := Job(0, 30)] && claimed.log == SentUnrecorded().log + [Event.Claim(0, 30)];
    var log := Next(claimed, after[1]).log;
    assert log == [Event.Claim(0, 0), SendFailed(0, 0, "db", Some(RESPONSE)), Event.Claim(0, 30), SendOk(0, 30, RESPONSE)];
    assert log[..3] == [Event.Claim(0, 0), SendFailed(0, 0, "db", Some(RESPONSE)), Event.Claim(0, 30)];
    assert log[..3][..2] == [Event.Claim(0, 0), SendFailed(0, 0, "db", Some(RESPONSE))] && log[..3][..2][..1] == [Event.Claim(0, 0)];
    assert EmailsOut(log[..3][..2][..1], 0) == 0;
    assert EmailsOut(log[..3][..2], 0) == 1 && EmailsOut(log[..3], 0) == 1;
  }
}
