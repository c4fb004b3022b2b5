/** What every reachable journal conserves, and the balances read from it. */
module LedgerBalances {
  import opened Common
  import opened GroupedSums
  import opened Ledger

  /** Which entries a query selects. */
  datatype Scope = OfMerchant(merchant: string) | OfAccount(account: string)

  predicate InScope(e: Entry, scope: Scope) {
    match scope
    case OfMerchant(m) => e.merchant == m
    case OfAccount(a) => e.account == a
  }

  /** The lines joined to the selected entries. */
  function LinesIn(entries: seq<Entry>, scope: Scope): seq<Line> {
    if entries == [] then []
    else
      var n := |entries| - 1;
      var init := LinesIn(entries[..n], scope);
      if InScope(entries[n], scope) then init + entries[n].lines else init
  }

  function CodeOf(line: Line): string {
    line.accountCode
  }

  function DebitPart(line: Line): int {
    if line.lineType == DEBIT then line.amount else 0
  }

  function CreditPart(line: Line): int {
    if line.lineType == CREDIT then line.amount else 0
  }

  /** Debit positive, credit negative. */
  function Signed(line: Line): int {
    DebitPart(line) - CreditPart(line)
  }

  datatype Balance = Balance(debitTotal: int, creditTotal: int, net: int)

  /** The balance query: it joins on the account in the entry's header, not on the lines' codes. */
  function AccountBalance(entries: seq<Entry>, account: string): Balance {
    var lines := LinesIn(entries, OfAccount(account));
    Balance(Total(lines, DebitPart), Total(lines, CreditPart), Total(lines, DebitPart) - Total(lines, CreditPart))
  }

  /** The balance of one account code over a merchant's lines. */
  function CodeBalance(entries: seq<Entry>, merchant: string, code: string): int {
    TotalFor(LinesIn(entries, OfMerchant(merchant)), CodeOf, Signed, code)
  }

  predicate SoundLine(line: Line) {
    line.amount > 0 && line.lineType in {DEBIT, CREDIT}
  }

  predicate SoundEntry(e: Entry) {
    && |e.lines| >= 2
    && (forall i :: 0 <= i < |e.lines| ==> SoundLine(e.lines[i]))
    && Total(e.lines, DebitPart) == Total(e.lines, CreditPart)
  }

  predicate SoundJournal(entries: seq<Entry>) {
    && (forall i :: 0 <= i < |entries| ==> entries[i].id == i && SoundEntry(entries[i]))
    && (forall i, j :: 0 <= i < j < |entries| && entries[i].key.Some? ==> entries[i].key != entries[j].key)
  }

  lemma {:induction false} SignedIsNet(lines: seq<Line>)
    ensures Total(lines, Signed) == Total(lines, DebitPart) - Total(lines, CreditPart)
  {
    if lines == [] {
    } else {
      SignedIsNet(lines[..|lines| - 1]);
    }
  }

  lemma PostedSides(line: LineInput)
    requires LineError(line).None?
    ensures SoundLine(PostedLine(line))
    ensures DebitPart(PostedLine(line)) == if TypeOf(line) == Some(DEBIT) then AmountOf(line) else 0
    ensures CreditPart(PostedLine(line)) == if TypeOf(line) == Some(CREDIT) then AmountOf(line) else 0
  {
  }

  /** A validated request's stored lines are all positive and two-sided. */
  lemma {:induction false} PostedLinesSound(lines: seq<LineInput>)
    requires FirstLineError(lines).None?
    ensures forall i :: 0 <= i < |lines| ==> SoundLine(PostedLines(lines)[i])
  {
    if lines == [] {
    } else {
      var n := |lines| - 1;
      PostedLinesSound(lines[..n]);
      PostedSides(lines[n]);
    }
  }

  /** The stored lines total, side by side, what validation totalled. */
  lemma {:induction false} PostedTotals(lines: seq<LineInput>)
    requires FirstLineError(lines).None?
    ensures Total(PostedLines(lines), DebitPart) == Debits(lines)
    ensures Total(PostedLines(lines), CreditPart) == Credits(lines)
  {
    if lines == [] {
    } else {
      var n := |lines| - 1;
      var init, last := lines[..n], lines[n];
      assert lines == init + [last];
      PostedTotals(init);
      PostedSides(last);
      TotalAppend(PostedLines(init), PostedLine(last), DebitPart);
      TotalAppend(PostedLines(init), PostedLine(last), CreditPart);
      TotalForAppend(init, last, TypeOf, AmountOf, Some(DEBIT));
      TotalForAppend(init, last, TypeOf, AmountOf, Some(CREDIT));
    }
  }

  lemma {:induction false} PostedEntrySound(id: nat, req: PostRequest)
    requires IsValid(req)
    ensures SoundEntry(EntryOf(id, req))
  {
    PostedTotals(req.lines);
    PostedLinesSound(req.lines);
  }

  /** Posting keeps the journal sound and only ever adds at its end. */
  lemma {:induction false} PostKeepsSound(entries: seq<Entry>, req: PostRequest)
    requires SoundJournal(entries)
    ensures SoundJournal(Post(entries, req)) && entries <= Post(entries, req)
  {
    if Appends(entries, req) {
      PostedEntrySound(|entries|, req);
    }
  }

  /** In every reachable journal, each entry has two or more positive lines and balances, and no key occurs twice. */
  lemma {:induction false} ReachableSound(reqs: seq<PostRequest>)
    ensures SoundJournal(PostAll(reqs))
    decreases |reqs|
  {
    if reqs == [] {
    } else {
      ReachableSound(reqs[..|reqs| - 1]);
      PostKeepsSound(PostAll(reqs[..|reqs| - 1]), reqs[|reqs| - 1]);
    }
  }

  /** The journal only grows: what was posted stays, unchanged and in place. */
  lemma {:induction false} JournalOnlyGrows(reqs: seq<PostRequest>, n: nat)
    requires n <= |reqs|
    ensures PostAll(reqs[..n]) <= PostAll(reqs)
    decreases |reqs|
  {
    if n == |reqs| {
      assert reqs[..n] == reqs;
    } else {
      var init := reqs[..|reqs| - 1];
      assert init[..n] == reqs[..n];
      JournalOnlyGrows(init, n);
    }
  }

  lemma {:induction false} SoundLinesBalance(entries: seq<Entry>, scope: Scope)
    requires forall i :: 0 <= i < |entries| ==> SoundEntry(entries[i])
    ensures Total(LinesIn(entries, scope), DebitPart) == Total(LinesIn(entries, scope), CreditPart)
  {
    if entries == [] {
    } else {
      var n := |entries| - 1;
      SoundLinesBalance(entries[..n], scope);
      if InScope(entries[n], scope) {
        TotalConcat(LinesIn(entries[..n], scope), entries[n].lines, DebitPart);
        TotalConcat(LinesIn(entries[..n], scope), entries[n].lines, CreditPart);
      }
    }
  }

  /** The reported net balance of any account is always zero, because whole entries are summed. */
  lemma AccountsNetToZero(reqs: seq<PostRequest>, account: string)
    ensures AccountBalance(PostAll(reqs), account).net == 0
  {
    ReachableSound(reqs);
    SoundLinesBalance(PostAll(reqs), OfAccount(account));
  }

  /** Trial balance: over any duplicate-free list of a merchant's codes, the code balances add up to zero. */
  lemma TrialBalance(reqs: seq<PostRequest>, merchant: string, codes: seq<string>)
    requires Distinct(codes) && Covers(LinesIn(PostAll(reqs), OfMerchant(merchant)), CodeOf, codes)
    ensures TotalOfGroups(LinesIn(PostAll(reqs), OfMerchant(merchant)), CodeOf, Signed, codes) == 0
  {
    var lines := LinesIn(PostAll(reqs), OfMerchant(merchant));
    ReachableSound(reqs);
    SoundLinesBalance(PostAll(reqs), OfMerchant(merchant));
    PartitionTotal(lines, CodeOf, Signed, codes);
    SignedIsNet(lines);
  }

  /** What a requested line does to a code's balance: its own amount, debit positive and credit negative. */
  function LineEffect(line: LineInput, code: string): int {
    if line.accountCode != code || line.amount.None? then 0
    else if line.lineType == Some("DEBIT") then line.amount.value
    else if line.lineType == Some("CREDIT") then -line.amount.value
    else 0
  }

  function LinesEffect(lines: seq<LineInput>, code: string): int {
    if lines == [] then 0
    else LinesEffect(lines[..|lines| - 1], code) + LineEffect(lines[|lines| - 1], code)
  }

  /** Each valid line is stored under its own code, with its own amount and side. */
  lemma {:induction false} PostedEffect(lines: seq<LineInput>, code: string)
    requires FirstLineError(lines).None?
    ensures TotalFor(PostedLines(lines), CodeOf, Signed, code) == LinesEffect(lines, code)
  {
    if lines == [] {
    } else {
      var n := |lines| - 1;
      PostedEffect(lines[..n], code);
      PostedSides(lines[n]);
      TotalForAppend(PostedLines(lines[..n]), PostedLine(lines[n]), CodeOf, Signed, code);
    }
  }

  /** What one request does to the balance of a merchant's code. */
  function Effect(req: PostRequest, merchant: string, code: string): int {
    if req.merchant == merchant then LinesEffect(req.lines, code) else 0
  }

  /** The effects of the listed requests, added up. */
  function TotalEffect(reqs: seq<PostRequest>, merchant: string, code: string): int {
    if reqs == [] then 0
    else TotalEffect(reqs[..|reqs| - 1], merchant, code) + Effect(reqs[|reqs| - 1], merchant, code)
  }

  lemma CodeBalanceAppend(entries: seq<Entry>, e: Entry, merchant: string, code: string)
    ensures CodeBalance(entries + [e], merchant, code)
         == CodeBalance(entries, merchant, code)
            + if e.merchant == merchant then TotalFor(e.lines, CodeOf, Signed, code) else 0
  {
    assert (entries + [e])[..|entries|] == entries;
    TotalForConcat(LinesIn(entries, OfMerchant(merchant)), e.lines, CodeOf, Signed, code);
  }

  /** A code's balance counts each request that counts exactly once, however often it was retried. */
  lemma {:induction false} BalanceCountsOnce(reqs: seq<PostRequest>, merchant: string, code: string)
    ensures CodeBalance(PostAll(reqs), merchant, code) == TotalEffect(Firsts(reqs), merchant, code)
    decreases |reqs|
  {
    if reqs == [] {
    } else {
      var n := |reqs| - 1;
      var init := reqs[..n];
      BalanceCountsOnce(init, merchant, code);
      AppendsIffFirst(reqs, n);
      if IsFirst(reqs, n) {
        var entries, kept := PostAll(init), Firsts(init);
        CodeBalanceAppend(entries, EntryOf(|entries|, reqs[n]), merchant, code);
        PostedEffect(reqs[n].lines, code);
        assert (kept + [reqs[n]])[..|kept|] == kept;
      }
    }
  }
}
