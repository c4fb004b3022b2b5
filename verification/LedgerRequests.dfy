/**
 The ledger in terms of what was requested: which requests are valid and why others are not, what
 the journal's entries and lines carry, and what the reported account balances add up.
 */
module LedgerRequests {
  import opened Common
  import opened GroupedSums
  import opened Ledger
  import opened LedgerBalances

  // ----- which requests are valid -----

  /** A line that passes the checks: one of the two sides, and a positive amount. */
  predicate Fine(line: LineInput) {
    && (line.lineType == Some("DEBIT") || line.lineType == Some("CREDIT"))
    && line.amount.Some? && line.amount.value > 0
  }

  predicate AllFine(lines: seq<LineInput>) {
    forall i :: 0 <= i < |lines| ==> Fine(lines[i])
  }

  /** The amounts of the lines of one side. */
  function SideSum(lines: seq<LineInput>, side: string): int {
    if lines == [] then 0
    else
      var last := lines[|lines| - 1];
      SideSum(lines[..|lines| - 1], side)
      + if last.lineType == Some(side) && last.amount.Some? then last.amount.value else 0
  }

  lemma {:induction false} SidesAreSums(lines: seq<LineInput>)
    ensures Debits(lines) == SideSum(lines, "DEBIT") && Credits(lines) == SideSum(lines, "CREDIT")
  {
    if lines == [] {
    } else {
      SidesAreSums(lines[..|lines| - 1]);
    }
  }

  /** The error that a line which is not fine is refused with. */
  function Complaint(line: LineInput): LedgerError {
    if line.lineType != Some("DEBIT") && line.lineType != Some("CREDIT") then InvalidLineType(line.lineType)
    else NonPositiveAmount(if line.amount.Some? then line.amount.value else 0)
  }

  lemma LineErrorIff(line: LineInput)
    ensures LineError(line) == if Fine(line) then None else Some(Complaint(line))
  {
  }

  /** The i-th line is the first that is not fine. */
  predicate FirstBad(lines: seq<LineInput>, i: nat) {
    i < |lines| && !Fine(lines[i]) && AllFine(lines[..i])
  }

  lemma {:induction false} FirstErrorIff(lines: seq<LineInput>)
    ensures FirstLineError(lines).None? <==> AllFine(lines)
    ensures forall i: nat :: FirstBad(lines, i) ==> FirstLineError(lines) == Some(Complaint(lines[i]))
  {
    if lines == [] {
    } else {
      var n := |lines| - 1;
      var init := lines[..n];
      FirstErrorIff(init);
      LineErrorIff(lines[n]);
      assert AllFine(lines) <==> AllFine(init) && Fine(lines[n]);
      forall i: nat | FirstBad(lines, i) ensures FirstLineError(lines) == Some(Complaint(lines[i])) {
        if i < n {
          assert init[..i] == lines[..i];
          assert FirstBad(init, i);
        }
      }
    }
  }

  /**
   A request is valid exactly when it has two lines or more, all fine, and debits equal credits.
   Otherwise it is refused with the first complaint in the order of the checks.
   */
  lemma {:induction false} ValidationIsExact(lines: seq<LineInput>)
    ensures ValidationError(lines).None?
       <==> |lines| >= 2 && AllFine(lines) && SideSum(lines, "DEBIT") == SideSum(lines, "CREDIT")
    ensures |lines| < 2 ==> ValidationError(lines) == Some(TooFewLines)
    ensures |lines| >= 2 ==>
      forall i: nat :: FirstBad(lines, i) ==> ValidationError(lines) == Some(Complaint(lines[i]))
    ensures |lines| >= 2 && AllFine(lines) && SideSum(lines, "DEBIT") != SideSum(lines, "CREDIT") ==>
      ValidationError(lines) == Some(Unbalanced(SideSum(lines, "DEBIT"), SideSum(lines, "CREDIT")))
  {
    FirstErrorIff(lines);
    SidesAreSums(lines);
    forall i: nat | FirstBad(lines, i) ensures !AllFine(lines) {
    }
  }

  // ----- what the journal carries -----

  /** The stored line has the code, amount and side that the request gave. */
  predicate StoredAs(line: Line, input: LineInput) {
    && line.accountCode == input.accountCode
    && Some(line.amount) == input.amount && Some(line.lineType) == input.lineType
  }

  /** The entry has everything that the request gave, and as many lines. */
  predicate Records(e: Entry, req: PostRequest) {
    && e.merchant == req.merchant && e.account == req.account && e.description == req.description && e.key == req.key
    && |e.lines| == |req.lines|
    && forall k :: 0 <= k < |e.lines| ==> StoredAs(e.lines[k], req.lines[k])
  }

  lemma {:induction false} LinesStored(lines: seq<LineInput>)
    requires AllFine(lines)
    ensures forall k :: 0 <= k < |lines| ==> StoredAs(PostedLines(lines)[k], lines[k])
  {
    if lines == [] {
    } else {
      LinesStored(lines[..|lines| - 1]);
    }
  }

  /** The i-th entry of the journal records the i-th request that counts, under its position as id. */
  lemma {:induction false} JournalRecordsRequests(reqs: seq<PostRequest>, i: nat)
    requires i < |Firsts(reqs)|
    ensures var entries := PostAll(reqs);
      |entries| == |Firsts(reqs)| && entries[i].id == i && Records(entries[i], Firsts(reqs)[i])
  {
    JournalIsFirsts(reqs);
    FirstsOfFirsts(reqs);
    var req := Firsts(reqs)[i];
    assert req in Firsts(reqs);
    ValidationIsExact(req.lines);
    LinesStored(req.lines);
  }

  /** A valid request whose key is not used is answered with the entry that it adds. */
  lemma {:induction false} NewEntryIsReturned(entries: seq<Entry>, req: PostRequest)
    requires IsValid(req) && !KeyUsed(entries, req.key)
    ensures var after := Post(entries, req);
      && |after| == |entries| + 1 && entries <= after && PostOutcome(entries, req) == Ok(after[|entries|])
      && Records(after[|entries|], req)
  {
    ValidationIsExact(req.lines);
    LinesStored(req.lines);
  }

  // ----- what the account balance adds up -----

  /** The amounts of one side of the requests that name the account in their header. */
  function RequestedSide(reqs: seq<PostRequest>, account: string, side: string): int {
    if reqs == [] then 0
    else
      var last := reqs[|reqs| - 1];
      RequestedSide(reqs[..|reqs| - 1], account, side) + if last.account == account then SideSum(last.lines, side) else 0
  }

  lemma LinesInAppend(entries: seq<Entry>, e: Entry, scope: Scope)
    ensures LinesIn(entries + [e], scope)
         == if InScope(e, scope) then LinesIn(entries, scope) + e.lines else LinesIn(entries, scope)
  {
    assert (entries + [e])[..|entries|] == entries;
  }

  lemma {:induction false} EntrySides(id: nat, req: PostRequest)
    requires IsValid(req)
    ensures Total(EntryOf(id, req).lines, DebitPart) == SideSum(req.lines, "DEBIT")
    ensures Total(EntryOf(id, req).lines, CreditPart) == SideSum(req.lines, "CREDIT")
  {
    PostedTotals(req.lines);
    SidesAreSums(req.lines);
  }

  /**
   The reported balance of an account: its totals are the debits and the credits of all lines of
   the requests that count and name the account in their header, whatever codes the lines carry.
   */
  lemma {:induction false} AccountTotals(reqs: seq<PostRequest>, account: string)
    ensures var balance := AccountBalance(PostAll(reqs), account);
      && balance.debitTotal == RequestedSide(Firsts(reqs), account, "DEBIT")
      && balance.creditTotal == RequestedSide(Firsts(reqs), account, "CREDIT")
      && balance.net == balance.debitTotal - balance.creditTotal
    decreases |reqs|
  {
    if reqs == [] {
    } else {
      var n := |reqs| - 1;
      var init := reqs[..n];
      AccountTotals(init, account);
      AppendsIffFirst(reqs, n);
      if IsFirst(reqs, n) {
        var entries, e := PostAll(init), EntryOf(|PostAll(init)|, reqs[n]);
        LinesInAppend(entries, e, OfAccount(account));
        TotalConcat(LinesIn(entries, OfAccount(account)), e.lines, DebitPart);
        TotalConcat(LinesIn(entries, OfAccount(account)), e.lines, CreditPart);
        EntrySides(|entries|, reqs[n]);
        assert (Firsts(init) + [reqs[n]])[..|Firsts(init)|] == Firsts(init);
      }
    }
  }
}
