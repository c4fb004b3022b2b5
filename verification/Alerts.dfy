/**
 Alert deduplication by source event. The look-up takes some row with the same merchant, event
 and type, in no particular order, so it may find a resolved one while an active one exists.
 */
module Alerts {
  import opened Common

  const OPEN := "open"
  const RESOLVED := "resolved"

  /** What alerts are deduplicated by. */
  datatype AlertKey = AlertKey(merchant: string, event: Option<string>, alertType: string)

  /** An update may store any text as the status; only "resolved" is treated differently. */
  datatype Alert = Alert(key: AlertKey, status: string, occurrences: nat)

  function NewAlert(k: AlertKey): Alert {
    Alert(k, OPEN, 1)
  }

  predicate Resolved(a: Alert) {
    a.status == RESOLVED
  }

  predicate Same(a: Alert, k: AlertKey) {
    a.key == k
  }

  predicate Exists(alerts: seq<Alert>, k: AlertKey) {
    exists i :: 0 <= i < |alerts| && Same(alerts[i], k)
  }

  /** What the database may answer: any row with the key, or nothing when there is none. */
  ghost predicate MayFind(alerts: seq<Alert>, k: AlertKey, found: Option<nat>) {
    if found.None? then !Exists(alerts, k)
    else found.value < |alerts| && Same(alerts[found.value], k)
  }

  /** One more occurrence; a stored zero counts as one. */
  function Bumped(a: Alert): Alert {
    a.(occurrences := (if a.occurrences == 0 then 1 else a.occurrences) + 1)
  }

  /** The table after a creation whose look-up, made only for a non-empty source event, found `found`. */
  function Created(alerts: seq<Alert>, k: AlertKey, found: Option<nat>): seq<Alert>
    requires found.Some? ==> found.value < |alerts|
  {
    if Truthy(k.event) && found.Some? && !Resolved(alerts[found.value]) then
      alerts[found.value := Bumped(alerts[found.value])]
    else alerts + [NewAlert(k)]
  }

  class AlertService {
    var alerts: seq<Alert>

    constructor ()
      ensures alerts == []
    {
      alerts := [];
    }

    method GetBySourceEvent(k: AlertKey) returns (found: Option<nat>)
      ensures MayFind(alerts, k, found)
    {
      if exists i :: 0 <= i < |alerts| && Same(alerts[i], k) {
        var i: nat :| i < |alerts| && Same(alerts[i], k);
        return Some(i);
      }
      return None;
    }

    method CreateAlert(k: AlertKey) returns (id: nat)
      modifies this
      ensures exists found: Option<nat> ::
        && (found.Some? ==> found.value < |old(alerts)|)
        && (Truthy(k.event) ==> MayFind(old(alerts), k, found))
        && alerts == Created(old(alerts), k, found)
      ensures id < |alerts| && Same(alerts[id], k) && alerts[id].status != "resolved"
    {
      ghost var found: Option<nat> := None;
      if Truthy(k.event) {
        var existing := GetBySourceEvent(k);
        found := existing;
        if existing.Some? && !Resolved(alerts[existing.value]) {
          id := existing.value;
          alerts := alerts[id := Bumped(alerts[id])];
          assert alerts == Created(old(alerts), k, found);
          return;
        }
      }
      id := |alerts|;
      alerts := alerts + [NewAlert(k)];
      assert alerts == Created(old(alerts), k, found);
    }

    method UpdateAlertStatus(id: nat, status: string)
      requires id < |alerts|
      modifies this
      ensures alerts == old(alerts)[id := old(alerts)[id].(status := status)]
    {
      alerts := alerts[id := alerts[id].(status := status)];
    }
  }

  // ----- runs -----

  /** A step with the row that its look-up found; a status change of an unknown row does nothing. */
  datatype Step =
    | Create(key: AlertKey, found: Option<nat>)
    | SetStatus(id: nat, status: string)

  /** The step's look-up result is one that the database may give. */
  ghost predicate Possible(alerts: seq<Alert>, s: Step) {
    s.Create? ==>
      && (s.found.Some? ==> s.found.value < |alerts|)
      && (Truthy(s.key.event) ==> MayFind(alerts, s.key, s.found))
  }

  ghost function Next(alerts: seq<Alert>, s: Step): seq<Alert>
    requires Possible(alerts, s)
  {
    match s
    case Create(key, found) => Created(alerts, key, found)
    case SetStatus(id, status) => if id < |alerts| then alerts[id := alerts[id].(status := status)] else alerts
  }

  ghost predicate PossibleRun(alerts: seq<Alert>, steps: seq<Step>)
    decreases |steps|
  {
    steps == [] || (Possible(alerts, steps[0]) && PossibleRun(Next(alerts, steps[0]), steps[1..]))
  }

  ghost function Run(alerts: seq<Alert>, steps: seq<Step>): seq<Alert>
    requires PossibleRun(alerts, steps)
    decreases |steps|
  {
    if steps == [] then alerts else Run(Next(alerts, steps[0]), steps[1..])
  }

  /** All occurrence counts under a key, added up. */
  function Occurrences(alerts: seq<Alert>, k: AlertKey): nat {
    if alerts == [] then 0
    else
      var last := alerts[|alerts| - 1];
      Occurrences(alerts[..|alerts| - 1], k)
      + if Same(last, k) then last.occurrences else 0
  }

  /** How many creations of the run ask for the key. */
  function Creations(steps: seq<Step>, k: AlertKey): nat {
    if steps == [] then 0
    else
      var s := steps[0];
      Creations(steps[1..], k)
      + if s.Create? && s.key == k then 1 else 0
  }

  predicate Counted(alerts: seq<Alert>) {
    forall i :: 0 <= i < |alerts| ==> alerts[i].occurrences >= 1
  }

  /** Replacing one row changes the sum by the difference of the two. */
  lemma {:induction false} OccurrencesUpdate(alerts: seq<Alert>, id: nat, a: Alert, k: AlertKey)
    requires id < |alerts| && (Same(a, k) <==> Same(alerts[id], k))
    ensures Occurrences(alerts[id := a], k)
         == Occurrences(alerts, k)
            + if Same(a, k) then a.occurrences - alerts[id].occurrences else 0
  {
    var n := |alerts| - 1;
    if id < n {
      assert alerts[id := a][..n] == alerts[..n][id := a];
      OccurrencesUpdate(alerts[..n], id, a, k);
    } else {
      assert alerts[id := a][..n] == alerts[..n];
    }
  }

  lemma OccurrencesAppend(alerts: seq<Alert>, a: Alert, k: AlertKey)
    ensures Occurrences(alerts + [a], k)
         == Occurrences(alerts, k) + if Same(a, k) then a.occurrences else 0
  {
    assert (alerts + [a])[..|alerts|] == alerts;
  }

  lemma StepCounts(alerts: seq<Alert>, s: Step, k: AlertKey)
    requires Counted(alerts) && Possible(alerts, s)
    ensures Counted(Next(alerts, s))
    ensures Occurrences(Next(alerts, s), k)
         == Occurrences(alerts, k) + Creations([s], k)
  {
    assert [s][1..] == [];
    match s
    case Create(key, found) =>
      if Truthy(key.event) && found.Some? && !Resolved(alerts[found.value]) {
        OccurrencesUpdate(alerts, found.value, Bumped(alerts[found.value]), k);
      } else {
        OccurrencesAppend(alerts, NewAlert(key), k);
      }
    case SetStatus(id, status) =>
      if id < |alerts| {
        OccurrencesUpdate(alerts, id, alerts[id].(status := status), k);
      }
  }

  /**
   Conservation: over any run of creations and status changes, and whichever rows the look-ups
   return, the occurrence counts under a key add up to the number of creations asking for it.
   */
  lemma {:induction false} OccurrencesConserved(alerts: seq<Alert>, steps: seq<Step>, k: AlertKey)
    requires Counted(alerts) && PossibleRun(alerts, steps)
    ensures Counted(Run(alerts, steps))
    ensures Occurrences(Run(alerts, steps), k)
         == Occurrences(alerts, k) + Creations(steps, k)
    decreases |steps|
  {
    if steps == [] {
    } else {
      StepCounts(alerts, steps[0], k);
      OccurrencesConserved(Next(alerts, steps[0]), steps[1..], k);
      assert [steps[0]][1..] == [];
    }
  }

  /**
   A step keeps every row's key and place and never lowers its count; only a status change touches
   a status. A creation adds at most one row, open and with one occurrence; a status change none.
   */
  lemma {:induction false} StepKeepsRows(alerts: seq<Alert>, s: Step)
    requires Possible(alerts, s)
    ensures var after := Next(alerts, s);
      && |alerts| <= |after| <= |alerts| + 1
      && (forall i :: 0 <= i < |alerts| ==>
            && after[i].key == alerts[i].key && after[i].occurrences >= alerts[i].occurrences
            && after[i].status == if s.SetStatus? && s.id == i then s.status else alerts[i].status)
      && (|after| > |alerts| ==>
            s.Create? && after[|alerts|].key == s.key
            && after[|alerts|].status == "open" && after[|alerts|].occurrences == 1)
  {
  }

  // ----- one active alert? -----

  predicate ActiveAt(alerts: seq<Alert>, i: nat, k: AlertKey) {
    i < |alerts| && Same(alerts[i], k) && alerts[i].status != "resolved"
  }

  ghost predicate HasActive(alerts: seq<Alert>, k: AlertKey) {
    exists i: nat :: ActiveAt(alerts, i, k)
  }

  ghost predicate ActiveElsewhere(alerts: seq<Alert>, id: nat, k: AlertKey) {
    exists i: nat :: i != id && ActiveAt(alerts, i, k)
  }

  ghost predicate AtMostOneActive(alerts: seq<Alert>, k: AlertKey) {
    forall i: nat, j: nat ::
      ActiveAt(alerts, i, k) && ActiveAt(alerts, j, k) ==> i == j
  }

  /** A new row is active, so it is the only active one exactly when there was none. */
  lemma AppendedIsActive(alerts: seq<Alert>, k: AlertKey)
    ensures AtMostOneActive(alerts + [NewAlert(k)], k) <==> !HasActive(alerts, k)
  {
    var after := alerts + [NewAlert(k)];
    assert ActiveAt(after, |alerts|, k);
    assert forall i: nat :: i < |alerts| ==> (ActiveAt(after, i, k) <==> ActiveAt(alerts, i, k));
  }

  /**
   A creation keeps at most one active alert under its key exactly when it does not find a
   resolved row beside an active one.
   */
  lemma CreationKeepsOneActive(alerts: seq<Alert>, k: AlertKey, found: Option<nat>)
    requires Truthy(k.event) && MayFind(alerts, k, found)
    requires AtMostOneActive(alerts, k)
    ensures AtMostOneActive(Created(alerts, k, found), k)
       <==> !(found.Some? && alerts[found.value].status == "resolved" && HasActive(alerts, k))
  {
    var after := Created(alerts, k, found);
    if found.Some? && !Resolved(alerts[found.value]) {
      assert forall i: nat :: ActiveAt(after, i, k) <==> ActiveAt(alerts, i, k);
    } else {
      AppendedIsActive(alerts, k);
    }
  }

  /** A status change keeps it exactly when it does not reopen a row of the key beside another active one. */
  lemma StatusChangeKeepsOneActive(alerts: seq<Alert>, k: AlertKey, id: nat, status: string)
    requires AtMostOneActive(alerts, k)
    ensures AtMostOneActive(Next(alerts, SetStatus(id, status)), k)
       <==> !(id < |alerts| && Same(alerts[id], k) && status != "resolved" && ActiveElsewhere(alerts, id, k))
  {
    var after := Next(alerts, SetStatus(id, status));
    assert forall i: nat :: i != id ==> (ActiveAt(after, i, k) <==> ActiveAt(alerts, i, k));
    assert ActiveAt(after, id, k) <==> id < |alerts| && Same(alerts[id], k) && status != "resolved";
  }

  /** The two kinds of step that leave a second active alert, read off the table and the step alone. */
  ghost predicate Breaks(alerts: seq<Alert>, s: Step, k: AlertKey) {
    match s
    case Create(key, found) =>
      && key == k && HasActive(alerts, k)
      && (Truthy(k.event) ==> found.Some? && found.value < |alerts| && alerts[found.value].status == "resolved")
    case SetStatus(id, status) =>
      && id < |alerts| && Same(alerts[id], k)
      && status != "resolved" && ActiveElsewhere(alerts, id, k)
  }

  lemma StepKeepsOneActive(alerts: seq<Alert>, s: Step, k: AlertKey)
    requires Possible(alerts, s) && AtMostOneActive(alerts, k)
    ensures AtMostOneActive(Next(alerts, s), k) <==> !Breaks(alerts, s, k)
  {
    match s
    case Create(key, found) =>
      if key != k {
        var after := Next(alerts, s);
        assert forall i: nat :: ActiveAt(after, i, k) <==> ActiveAt(alerts, i, k);
      } else if Truthy(k.event) {
        CreationKeepsOneActive(alerts, k, found);
      } else {
        AppendedIsActive(alerts, k);
      }
    case SetStatus(id, status) => StatusChangeKeepsOneActive(alerts, k, id, status);
  }

  /** The table after the first n steps of a run. */
  ghost function TableAt(alerts: seq<Alert>, steps: seq<Step>, n: nat): (r: seq<Alert>)
    requires PossibleRun(alerts, steps) && n <= |steps|
    ensures n == |steps| ==> r == Run(alerts, steps)
    decreases n
  {
    if n == 0 then alerts else TableAt(Next(alerts, steps[0]), steps[1..], n - 1)
  }

  ghost predicate OneActiveAt(alerts: seq<Alert>, steps: seq<Step>, k: AlertKey, n: nat)
    requires PossibleRun(alerts, steps) && n <= |steps|
  {
    AtMostOneActive(TableAt(alerts, steps, n), k)
  }

  ghost predicate BreaksAt(alerts: seq<Alert>, steps: seq<Step>, k: AlertKey, n: nat)
    requires PossibleRun(alerts, steps) && n < |steps|
  {
    Breaks(TableAt(alerts, steps, n), steps[n], k)
  }

  /** What holds throughout a run holds at its start and throughout the rest. */
  lemma ShiftByOne(alerts: seq<Alert>, steps: seq<Step>, k: AlertKey)
    requires PossibleRun(alerts, steps) && steps != []
    ensures var next, rest := Next(alerts, steps[0]), steps[1..];
      && ((forall n: nat :: n <= |steps| ==> OneActiveAt(alerts, steps, k, n))
         <==> AtMostOneActive(alerts, k) && forall n: nat :: n <= |rest| ==> OneActiveAt(next, rest, k, n))
      && ((forall n: nat :: n < |steps| ==> !BreaksAt(alerts, steps, k, n))
         <==> !Breaks(alerts, steps[0], k) && forall n: nat :: n < |rest| ==> !BreaksAt(next, rest, k, n))
  {
    var next, rest := Next(alerts, steps[0]), steps[1..];
    assert OneActiveAt(alerts, steps, k, 0) <==> AtMostOneActive(alerts, k);
    assert BreaksAt(alerts, steps, k, 0) <==> Breaks(alerts, steps[0], k);
    assert forall n: nat :: n <= |rest| ==> (OneActiveAt(next, rest, k, n) <==> OneActiveAt(alerts, steps, k, n + 1));
    assert forall n: nat :: n < |rest| ==> (BreaksAt(next, rest, k, n) <==> BreaksAt(alerts, steps, k, n + 1));
    assert forall n: nat :: 0 < n <= |steps| ==> (OneActiveAt(alerts, steps, k, n) <==> OneActiveAt(next, rest, k, n - 1));
    assert forall n: nat :: 0 < n < |steps| ==> (BreaksAt(alerts, steps, k, n) <==> BreaksAt(next, rest, k, n - 1));
  }

  /**
   A run keeps at most one active alert under a key throughout exactly when it contains neither a
   creation that finds a resolved row, or looks for none, beside an active one, nor a status change
   that reopens a row beside another active one.
   */
  lemma {:induction false} OneActiveThroughoutIff(alerts: seq<Alert>, steps: seq<Step>, k: AlertKey)
    requires PossibleRun(alerts, steps) && AtMostOneActive(alerts, k)
    ensures (forall n: nat :: n <= |steps| ==> OneActiveAt(alerts, steps, k, n))
       <==> (forall n: nat :: n < |steps| ==> !BreaksAt(alerts, steps, k, n))
    decreases |steps|
  {
    if steps == [] {
      assert OneActiveAt(alerts, steps, k, 0);
    } else {
      var next, rest := Next(alerts, steps[0]), steps[1..];
      StepKeepsOneActive(alerts, steps[0], k);
      ShiftByOne(alerts, steps, k);
      if AtMostOneActive(next, k) {
        OneActiveThroughoutIff(next, rest, k);
      } else {
        assert !OneActiveAt(alerts, steps, k, 1);
      }
    }
  }

  const KEY := AlertKey("m", Some("e"), "t")

  /** Raise, resolve, raise again: a resolved row and an active one. */
  lemma RaisedAgain(last: Step)
    requires Possible([NewAlert(KEY).(status := RESOLVED), NewAlert(KEY)], last)
    ensures var steps := [Create(KEY, None), SetStatus(0, RESOLVED), Create(KEY, Some(0)), last];
      && PossibleRun([], steps)
      && Run([], steps) == Next([NewAlert(KEY).(status := RESOLVED), NewAlert(KEY)], last)
  {
    var s := [Create(KEY, None), SetStatus(0, RESOLVED), Create(KEY, Some(0)), last];
    var raised := [NewAlert(KEY)];
    var resolved := [NewAlert(KEY).(status := RESOLVED)];
    var both := resolved + raised;
    assert s[1..] == [s[1], s[2], last] && [s[1], s[2], last][1..] == [s[2], last] && [s[2], last][1..] == [last];
    assert [last][1..] == [];
    assert Next([], s[0]) == raised;
    assert Next(raised, s[1]) == resolved;
    assert Next(resolved, s[2]) == both;
    assert both == [resolved[0], raised[0]];
    var end := Next(both, last);
    assert PossibleRun(end, []) && Run(end, []) == end;
    assert PossibleRun(both, [last]) && Run(both, [last]) == end;
    assert PossibleRun(resolved, [s[2], last]) && Run(resolved, [s[2], last]) == end;
    assert PossibleRun(raised, [s[1], s[2], last]) && Run(raised, [s[1], s[2], last]) == end;
  }

  /**
   Both breaking steps occur: raising once more, and reopening the resolved row, leave two active
   alerts under one key.
   */
  lemma TwoActiveAlerts()
    ensures exists steps: seq<Step> ::
      PossibleRun([], steps) && |steps| == 4 && steps[3].Create? && !AtMostOneActive(Run([], steps), KEY)
    ensures exists steps: seq<Step> ::
      PossibleRun([], steps) && |steps| == 4 && steps[3].SetStatus? && !AtMostOneActive(Run([], steps), KEY)
  {
    var both := [NewAlert(KEY).(status := RESOLVED), NewAlert(KEY)];
    var again, reopen := Create(KEY, Some(0)), SetStatus(0, OPEN);
    RaisedAgain(again);
    assert ActiveAt(Next(both, again), 1, KEY) && ActiveAt(Next(both, again), 2, KEY);
    RaisedAgain(reopen);
    assert ActiveAt(Next(both, reopen), 0, KEY) && ActiveAt(Next(both, reopen), 1, KEY);
  }
}
