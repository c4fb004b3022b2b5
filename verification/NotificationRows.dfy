/**
 What every reachable notification row says: its columns against the log of what happened to it,
 and its identity and read mark against the requests that were made.
 */
module NotificationRows {
  import opened Common
  import opened Notifications

  // ----- what a log says last -----

  function LastClaim(log: seq<Event>, id: nat): Option<int> {
    if log == [] then None
    else
      var e := log[|log| - 1];
      if e.Claim? && e.id == id then Some(e.now) else LastClaim(log[..|log| - 1], id)
  }

  /** The error of the last completion, or none if that one succeeded. */
  function LastError(log: seq<Event>, id: nat): Option<string> {
    if log == [] then None
    else
      var e := log[|log| - 1];
      if e.SendFailed? && e.id == id then Some(e.error)
      else if e.SendOk? && e.id == id then None
      else LastError(log[..|log| - 1], id)
  }

  datatype Delivery = Delivery(at: int, response: Response)

  /** When the last e-mail that went out was claimed, and what the adapter answered. */
  function LastDelivery(log: seq<Event>, id: nat): Option<Delivery> {
    if log == [] then None
    else
      var e := log[|log| - 1];
      if e.SendOk? && e.id == id then Some(Delivery(e.at, e.response))
      else if e.SendFailed? && e.id == id && e.delivered.Some? then Some(Delivery(e.at, e.delivered.value))
      else LastDelivery(log[..|log| - 1], id)
  }

  lemma LastAppend(log: seq<Event>, e: Event, id: nat)
    ensures LastClaim(log + [e], id) == if e.Claim? && e.id == id then Some(e.now) else LastClaim(log, id)
    ensures LastError(log + [e], id)
         == if e.id != id || e.Claim? then LastError(log, id) else if e.SendOk? then None else Some(e.error)
    ensures LastDelivery(log + [e], id)
         == if e.id != id || e.Claim? then LastDelivery(log, id)
            else if e.SendOk? then Some(Delivery(e.at, e.response))
            else if e.delivered.Some? then Some(Delivery(e.at, e.delivered.value))
            else LastDelivery(log, id)
  {
    assert (log + [e])[..|log|] == log;
  }

  // ----- columns against the log -----

  /** The columns that a delivery writes are those of the last claim, completion and e-mail. */
  predicate Tells(row: Row, log: seq<Event>, id: nat) {
    && row.lastAttemptAt == LastClaim(log, id)
    && row.deliveryError == LastError(log, id)
    && (match LastDelivery(log, id)
        case None => row.sentAt == None && row.providerResponse == None && row.channelMessageId == None
        case Some(d) =>
          row.sentAt == Some(d.at) && row.providerResponse == Some(d.response)
          && row.channelMessageId == d.response.messageId)
  }

  /**
   A row marked sent has no error and no retry time, and was sent in its last attempt; an abandoned
   one has no retry time.
   */
  predicate Closed(row: Row) {
    && (row.status.Sent? ==>
          row.deliveryError == None && row.nextRetryAt == None
          && row.sentAt == row.lastAttemptAt && row.sentAt.Some? && row.providerResponse.Some?)
    && (row.status.Abandoned? ==> row.nextRetryAt == None)
  }

  predicate Told(s: System, id: nat) {
    if id < |s.rows| then Tells(s.rows[id], s.log, id) && Closed(s.rows[id])
    else LastClaim(s.log, id) == None && LastError(s.log, id) == None && LastDelivery(s.log, id) == None
  }

  lemma {:induction false} LastOfTimes(log: seq<Event>, id: nat)
    ensures var times := ClaimTimes(log, id);
      LastClaim(log, id) == if times == [] then None else Some(times[|times| - 1])
  {
    if log == [] {
    } else {
      LastOfTimes(log[..|log| - 1], id);
    }
  }

  lemma {:induction false} ClaimTells(s: System, w: nat, other: nat, now: int, id: nat)
    requires Told(s, id)
    ensures Told(Next(s, TryClaim(w, other, now)), id)
  {
    LastAppend(s.log, Event.Claim(other, now), id);
  }

  /** The row that a completion writes tells the log with that completion appended. */
  lemma {:induction false} FinishedTells(row: Row, log: seq<Event>, job: Job, outcome: Outcome)
    requires Tells(row, log, job.id) && LastClaim(log, job.id) == Some(job.now)
    ensures Tells(Finished(row, outcome, job.now), log + [Completion(job, outcome)], job.id)
    ensures Closed(Finished(row, outcome, job.now))
  {
    LastAppend(log, Completion(job, outcome), job.id);
  }

  lemma {:induction false} CompletionTells(s: System, w: nat, outcome: Outcome, id: nat)
    requires Inv(s) && Told(s, id) && w in s.jobs
    ensures Told(Next(s, Complete(w, outcome)), id)
  {
    var job := s.jobs[w];
    assert JobAgrees(s, job);
    if id == job.id {
      LastOfTimes(s.log, id);
      FinishedTells(s.rows[id], s.log, job, outcome);
    } else {
      LastAppend(s.log, Completion(job, outcome), id);
    }
  }

  lemma {:induction false} StepTells(s: System, step: Step, id: nat)
    requires Inv(s) && Told(s, id)
    ensures Told(Next(s, step), id)
  {
    match step
    case Create(_, _, _) =>
    case MarkRead(_) =>
    case TryClaim(w, other, now) => ClaimTells(s, w, other, now, id);
    case Complete(w, outcome) =>
      if w in s.jobs {
        CompletionTells(s, w, outcome, id);
      }
  }

  lemma {:induction false} RunTells(s: System, steps: seq<Step>, id: nat)
    requires Inv(s) && Told(s, id)
    ensures Told(Run(s, steps), id)
    decreases |steps|
  {
    if steps == [] {
    } else {
      StepKeepsInv(s, steps[0]);
      StepTells(s, steps[0], id);
      RunTells(Next(s, steps[0]), steps[1..], id);
    }
  }

  /**
   In every run, whatever the interleaving, a row's columns are those of its last claim, its last
   completion and the last e-mail that went out: the adapter's own response and message id, stored
   with the time of that claim. A sent row has no error and no retry time left over.
   */
  lemma {:induction false} RowTellsItsLog(steps: seq<Step>, id: nat)
    requires id < |Run(START, steps).rows|
    ensures var s := Run(START, steps);
      Tells(s.rows[id], s.log, id) && Closed(s.rows[id])
  {
    assert Inv(START);
    RunTells(START, steps, id);
  }

  /** The seconds to wait after each failed attempt. */
  const WAITS := [30, 60, 120, 240]

  lemma {:induction false} WaitTable(fails: nat)
    requires 1 <= fails <= 4
    ensures RetryDelay(fails) == WAITS[fails - 1]
  {
    assert Pow2(0) == 1 && Pow2(1) == 2;
    assert Pow2(2) == 4 && Pow2(3) == 8;
  }

  /**
   A row that waits for its retry has failed one to four times and can be claimed exactly from the
   back-off after its last claim on; one that is abandoned has failed exactly five times.
   */
  lemma {:induction false} RetryDueExactly(steps: seq<Step>, id: nat, now: int)
    requires id < |Run(START, steps).rows|
    ensures var s := Run(START, steps);
      var row, fails, last := s.rows[id], FailedSends(s.log, id), LastClaim(s.log, id);
      && (row.status.RetryScheduled? ==>
            1 <= fails <= 4 && last.Some? && (Claimable(row, now) <==> now >= last.value + WAITS[fails - 1]))
      && (row.status.Abandoned? ==> fails == 5)
      && (row.status.Pending? ==> Claimable(row, now))
  {
    var s := Run(START, steps);
    ReachableInv(steps);
    assert RowInv(s, id);
    LastOfTimes(s.log, id);
    if s.rows[id].status.RetryScheduled? {
      WaitTable(FailedSends(s.log, id));
    }
  }

  /** A free worker's claim takes effect exactly on a row in a claimable status whose retry time, if any, has come. */
  lemma ClaimTakesIff(s: System, w: nat, id: nat, now: int)
    requires w !in s.jobs
    ensures var t := Next(s, TryClaim(w, id, now));
      (w in t.jobs <==>
        && id < |s.rows|
        && (s.rows[id].status == Pending || s.rows[id].status == RetryScheduled || s.rows[id].status == Failed)
        && (s.rows[id].nextRetryAt == None || s.rows[id].nextRetryAt.value <= now))
      && (w in t.jobs ==>
            && t.jobs[w] == Job(id, now) && t.log == s.log + [Event.Claim(id, now)]
            && t.rows == s.rows[id := s.rows[id].(status := Sending, lastAttemptAt := Some(now))])
      && (w !in t.jobs ==> t == s)
  {
  }

  /** Marking a row read leaves everything else in it, and all other rows, as they were. */
  lemma MarkReadChangesStatusOnly(s: System, id: nat, j: nat)
    requires id < |s.rows| && j < |s.rows|
    ensures var t := Next(s, MarkRead(id));
      && |t.rows| == |s.rows| && t.jobs == s.jobs && t.log == s.log
      && t.rows[j] == if j == id then s.rows[j].(status := Read) else s.rows[j]
  {
  }

  /**
   A creation request adds a row exactly when it has no delivery key, or an empty one, or its
   merchant has no row with the key yet; otherwise it is answered with such a row.
   */
  lemma {:induction false} CreationAddsIff(rows: seq<Row>, merchant: string, channel: string, key: Option<string>)
    ensures var (after, id) := Created(rows, merchant, channel, key);
      var known := key.Some? && key.value != ""
                   && exists i :: 0 <= i < |rows| && rows[i].merchant == merchant && rows[i].deliveryKey == key;
      && |after| == |rows| + (if known then 0 else 1)
      && after[..|rows|] == rows
      && after[id].merchant == merchant && after[id].deliveryKey == key
      && (!known ==> id == |rows| && after[id].channel == channel)
  {
    var found := FindDelivery(rows, merchant, key);
    assert forall i :: 0 <= i < found ==> !SameDelivery(rows[i], merchant, key);
  }

  // ----- rows against requests -----

  predicate SameIdentity(a: Row, b: Row) {
    a.merchant == b.merchant && a.channel == b.channel && a.deliveryKey == b.deliveryKey
  }

  /** The run asks to create this row, or to mark it read. */
  predicate Requested(steps: seq<Step>, row: Row) {
    Create(row.merchant, row.channel, row.deliveryKey) in steps
  }

  /** A step keeps every row's identity, and a row becomes read only by being marked. */
  lemma {:induction false} StepKeepsIdentity(s: System, step: Step, id: nat)
    requires id < |Next(s, step).rows|
    ensures var t := Next(s, step);
      if id < |s.rows| then
        && SameIdentity(t.rows[id], s.rows[id])
        && (t.rows[id].status.Read? ==> s.rows[id].status.Read? || step == MarkRead(id))
      else
        && step == Create(t.rows[id].merchant, t.rows[id].channel, t.rows[id].deliveryKey)
        && t.rows[id].status == if t.rows[id].channel == "in_app" then Unread else Pending
  {
  }

  lemma RowsOnlyGrow(s: System, step: Step)
    ensures |s.rows| <= |Next(s, step).rows|
  {
  }

  lemma {:induction false} RunKeepsIdentity(s: System, steps: seq<Step>, id: nat)
    requires id < |Run(s, steps).rows|
    ensures var t := Run(s, steps);
      && (if id < |s.rows| then SameIdentity(t.rows[id], s.rows[id]) else Requested(steps, t.rows[id]))
      && (t.rows[id].status.Read? ==> (id < |s.rows| && s.rows[id].status.Read?) || MarkRead(id) in steps)
    decreases |steps|
  {
    if steps == [] {
    } else {
      var next := Next(s, steps[0]);
      RunKeepsIdentity(next, steps[1..], id);
      if id < |next.rows| {
        StepKeepsIdentity(s, steps[0], id);
      } else {
        RowsOnlyGrow(s, steps[0]);
      }
    }
  }

  /**
   Every row of a run carries merchant, channel and delivery key of a request to create it, and is
   read only if a reader marked it.
   */
  lemma {:induction false} RowsComeFromRequests(steps: seq<Step>, id: nat)
    requires id < |Run(START, steps).rows|
    ensures var row := Run(START, steps).rows[id];
      Requested(steps, row) && (row.status.Read? ==> MarkRead(id) in steps)
  {
    RunKeepsIdentity(START, steps, id);
  }
}
