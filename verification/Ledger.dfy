/**
 Double-entry ledger: an append-only list of balanced journal entries, posted under optional
 idempotency keys, and the balances read from it. Amounts are in minor units.
 */
module Ledger {
  import opened Common
  import opened GroupedSums

  const DEBIT := "DEBIT"
  const CREDIT := "CREDIT"

  /** One line of a posting request; either field may be missing from the request. */
  datatype LineInput = LineInput(accountCode: string, amount: Option<int>, lineType: Option<string>)

  datatype PostRequest = PostRequest(
    merchant: string,
    account: string,
    description: string,
    lines: seq<LineInput>,
    key: Option<string>)

  datatype Line = Line(accountCode: string, amount: int, lineType: string)

  /** A journal entry with its lines; its id is its position in the journal. */
  datatype Entry = Entry(
    id: nat,
    merchant: string,
    account: string,
    description: string,
    key: Option<string>,
    lines: seq<Line>)

  datatype LedgerError =
    | TooFewLines
    | InvalidLineType(found: Option<string>)
    | NonPositiveAmount(amount: int)
    | Unbalanced(debits: int, credits: int)
    | KeyTaken  // the unique index on the idempotency key refuses the row

  datatype Account = Account(merchant: string, code: string, isActive: bool)

  datatype Fee = Fee(merchant: string, entry: nat, feeType: string, amount: int)

  // ----- validation -----

  /** A missing amount counts as zero. */
  function AmountOf(line: LineInput): int {
    if line.amount.Some? then line.amount.value else 0
  }

  function TypeOf(line: LineInput): Option<string> {
    line.lineType
  }

  function LineError(line: LineInput): Option<LedgerError> {
    if line.lineType != Some(DEBIT) && line.lineType != Some(CREDIT) then Some(InvalidLineType(line.lineType))
    else if AmountOf(line) <= 0 then Some(NonPositiveAmount(AmountOf(line)))
    else None
  }

  /** The error of the first line that has one. */
  function FirstLineError(lines: seq<LineInput>): Option<LedgerError> {
    if lines == [] then None
    else
      var earlier := FirstLineError(lines[..|lines| - 1]);
      if earlier.Some? then earlier else LineError(lines[|lines| - 1])
  }

  function Debits(lines: seq<LineInput>): int {
    TotalFor(lines, TypeOf, AmountOf, Some(DEBIT))
  }

  function Credits(lines: seq<LineInput>): int {
    TotalFor(lines, TypeOf, AmountOf, Some(CREDIT))
  }

  function ValidationError(lines: seq<LineInput>): Option<LedgerError> {
    if |lines| < 2 then Some(TooFewLines)
    else if FirstLineError(lines).Some? then FirstLineError(lines)
    else if Debits(lines) != Credits(lines) then Some(Unbalanced(Debits(lines), Credits(lines)))
    else None
  }

  predicate IsValid(req: PostRequest) {
    ValidationError(req.lines).None?
  }

  // ----- posting -----

  function PostedLine(line: LineInput): Line {
    Line(line.accountCode, AmountOf(line), if line.lineType.Some? then line.lineType.value else "")
  }

  function PostedLines(lines: seq<LineInput>): (r: seq<Line>)
    ensures |r| == |lines|
  {
    if lines == [] then [] else PostedLines(lines[..|lines| - 1]) + [PostedLine(lines[|lines| - 1])]
  }

  function EntryOf(id: nat, req: PostRequest): Entry {
    Entry(id, req.merchant, req.account, req.description, req.key, PostedLines(req.lines))
  }

  /** Position of the entry posted under the key, or the journal's length. */
  function FindKey(entries: seq<Entry>, key: Option<string>): (i: nat)
    ensures i <= |entries|
    ensures i < |entries| ==> entries[i].key == key
    ensures forall j :: 0 <= j < i ==> entries[j].key != key
  {
    if entries == [] || entries[0].key == key then 0 else 1 + FindKey(entries[1..], key)
  }

  predicate KeyUsed(entries: seq<Entry>, key: Option<string>) {
    key.Some? && FindKey(entries, key) < |entries|
  }

  /** Whether the request adds an entry to the journal. */
  predicate Appends(entries: seq<Entry>, req: PostRequest) {
    IsValid(req) && !KeyUsed(entries, req.key)
  }

  function Post(entries: seq<Entry>, req: PostRequest): seq<Entry> {
    if Appends(entries, req) then entries + [EntryOf(|entries|, req)] else entries
  }

  /** What the caller gets back. */
  function PostOutcome(entries: seq<Entry>, req: PostRequest): Result<Entry, LedgerError> {
    if Truthy(req.key) && KeyUsed(entries, req.key) then Ok(entries[FindKey(entries, req.key)])
    else if ValidationError(req.lines).Some? then Err(ValidationError(req.lines).value)
    else if KeyUsed(entries, req.key) then Err(KeyTaken)
    else Ok(EntryOf(|entries|, req))
  }

  lemma {:induction false} FirstErrorStands(lines: seq<LineInput>, n: nat)
    requires n <= |lines| && FirstLineError(lines[..n]).Some?
    ensures FirstLineError(lines) == FirstLineError(lines[..n])
  {
    if n == |lines| {
      assert lines[..n] == lines;
    } else {
      assert lines[..|lines| - 1][..n] == lines[..n];
      FirstErrorStands(lines[..|lines| - 1], n);
    }
  }

  // ----- accounts -----

  function FindAccount(accounts: seq<Account>, merchant: string, code: string): (i: nat)
    ensures i <= |accounts|
    ensures i < |accounts| ==> accounts[i].merchant == merchant && accounts[i].code == code
    ensures forall j :: 0 <= j < i ==> accounts[j].merchant != merchant || accounts[j].code != code
  {
    if accounts == [] || (accounts[0].merchant == merchant && accounts[0].code == code) then 0
    else 1 + FindAccount(accounts[1..], merchant, code)
  }

  function Opened(accounts: seq<Account>, merchant: string, code: string, isActive: bool): seq<Account> {
    if FindAccount(accounts, merchant, code) < |accounts| then accounts
    else accounts + [Account(merchant, code, isActive)]
  }

  /** One line further in the validation loop: the error so far and the two sums. */
  lemma {:induction false} NextLine(lines: seq<LineInput>, i: nat)
    requires i < |lines| && FirstLineError(lines[..i]).None?
    ensures FirstLineError(lines[..i + 1]) == LineError(lines[i])
    ensures Debits(lines[..i + 1])
         == Debits(lines[..i]) + if lines[i].lineType == Some(DEBIT) then AmountOf(lines[i]) else 0
    ensures Credits(lines[..i + 1])
         == Credits(lines[..i]) + if lines[i].lineType == Some(CREDIT) then AmountOf(lines[i]) else 0
  {
    assert lines[..i + 1][..i] == lines[..i];
    assert lines[..i + 1] == lines[..i] + [lines[i]];
    TotalForAppend(lines[..i], lines[i], TypeOf, AmountOf, Some(DEBIT));
    TotalForAppend(lines[..i], lines[i], TypeOf, AmountOf, Some(CREDIT));
  }

  /** The checks on a request's lines, in their order. */
  method Validate(lines: seq<LineInput>) returns (error: Option<LedgerError>)
    ensures error == ValidationError(lines)
  {
    if |lines| < 2 {
      return Some(TooFewLines);
    }
    var debits, credits, i := 0, 0, 0;
    while i < |lines|
      invariant 0 <= i <= |lines|
      invariant FirstLineError(lines[..i]).None?
      invariant debits == Debits(lines[..i]) && credits == Credits(lines[..i])
    {
      var line := lines[i];
      NextLine(lines, i);
      if LineError(line).Some? {
        FirstErrorStands(lines, i + 1);
      }
      if line.lineType != Some(DEBIT) && line.lineType != Some(CREDIT) {
        return Some(InvalidLineType(line.lineType));
      }
      if AmountOf(line) <= 0 {
        return Some(NonPositiveAmount(AmountOf(line)));
      }
      if line.lineType == Some(DEBIT) {
        debits := debits + AmountOf(line);
      } else {
        credits := credits + AmountOf(line);
      }
      i := i + 1;
    }
    assert lines[..i] == lines;
    return if debits != credits then Some(Unbalanced(debits, credits)) else None;
  }

  /** The loop that turns the request's lines into rows. */
  method CopyLines(inputs: seq<LineInput>) returns (lines: seq<Line>)
    ensures lines == PostedLines(inputs)
  {
    lines := [];
    var i := 0;
    while i < |inputs|
      invariant 0 <= i <= |inputs|
      invariant lines == PostedLines(inputs[..i])
    {
      assert inputs[..i + 1][..i] == inputs[..i];
      lines := lines + [PostedLine(inputs[i])];
      i := i + 1;
    }
    assert inputs[..i] == inputs;
  }

  // ----- the service -----

  class LedgerService {
    var accounts: seq<Account>
    var entries: seq<Entry>
    var fees: seq<Fee>

    constructor ()
      ensures accounts == [] && entries == [] && fees == []
    {
      accounts, entries, fees := [], [], [];
    }

    method GetOrCreateAccount(merchant: string, code: string, isActive: bool) returns (account: Account)
      modifies this`accounts
      ensures account.merchant == merchant && account.code == code && account in accounts
      ensures accounts == Opened(old(accounts), merchant, code, isActive)
    {
      var found := FindAccount(accounts, merchant, code);
      if found < |accounts| {
        return accounts[found];
      }
      account := Account(merchant, code, isActive);
      accounts := accounts + [account];
    }

    method PostJournalEntry(req: PostRequest) returns (r: Result<Entry, LedgerError>)
      modifies this`entries
      ensures r == PostOutcome(old(entries), req)
      ensures entries == Post(old(entries), req)
    {
      if Truthy(req.key) {
        var existing := FindKey(entries, req.key);
        if existing < |entries| {
          return Ok(entries[existing]);
        }
      }
      var error := Validate(req.lines);
      if error.Some? {
        return Err(error.value);
      }
      if KeyUsed(entries, req.key) {
        return Err(KeyTaken);
      }
      var lines := CopyLines(req.lines);
      var entry := Entry(|entries|, req.merchant, req.account, req.description, req.key, lines);
      entries := entries + [entry];
      return Ok(entry);
    }

    method RecordFee(merchant: string, entry: nat, feeType: string, amount: int) returns (r: Result<Fee, LedgerError>)
      modifies this`fees
      ensures amount <= 0 ==> r == Err(NonPositiveAmount(amount)) && fees == old(fees)
      ensures amount > 0 ==> r == Ok(Fee(merchant, entry, feeType, amount)) && fees == old(fees) + [r.value]
    {
      if amount <= 0 {
        return Err(NonPositiveAmount(amount));
      }
      var fee := Fee(merchant, entry, feeType, amount);
      fees := fees + [fee];
      return Ok(fee);
    }
  }

  // ----- opening accounts -----

  predicate OneAccountPerCode(accounts: seq<Account>) {
    forall i, j :: 0 <= i < j < |accounts| ==>
      accounts[i].merchant != accounts[j].merchant || accounts[i].code != accounts[j].code
  }

  /** Opening keeps account codes unique per merchant, keeps all accounts, and done twice does nothing more. */
  lemma OpeningIsIdempotent(accounts: seq<Account>, merchant: string, code: string, active: bool, active': bool)
    requires OneAccountPerCode(accounts)
    ensures var once := Opened(accounts, merchant, code, active);
      && accounts <= once && OneAccountPerCode(once)
      && Opened(once, merchant, code, active') == once
      && (exists i :: 0 <= i < |once| && once[i].merchant == merchant && once[i].code == code)
      && forall i :: |accounts| <= i < |once| ==> once[i] == Account(merchant, code, active)
  {
    var once := Opened(accounts, merchant, code, active);
    if FindAccount(accounts, merchant, code) == |accounts| {
      assert once[|accounts|] == Account(merchant, code, active);
    }
  }

  // ----- retries -----

  /** The journal after a sequence of requests. */
  function PostAll(reqs: seq<PostRequest>): seq<Entry> {
    if reqs == [] then [] else Post(PostAll(reqs[..|reqs| - 1]), reqs[|reqs| - 1])
  }

  /** A valid request whose key, if it has one, no earlier valid request carries. */
  predicate IsFirst(reqs: seq<PostRequest>, i: nat)
    requires i < |reqs|
  {
    && IsValid(reqs[i])
    && (reqs[i].key.Some? ==> forall j :: 0 <= j < i && IsValid(reqs[j]) ==> reqs[j].key != reqs[i].key)
  }

  /** The requests that count: unkeyed valid ones, and the first valid one under each key. */
  function Firsts(reqs: seq<PostRequest>): seq<PostRequest> {
    if reqs == [] then []
    else
      var n := |reqs| - 1;
      if IsFirst(reqs, n) then Firsts(reqs[..n]) + [reqs[n]] else Firsts(reqs[..n])
  }

  function EntriesOf(reqs: seq<PostRequest>): (r: seq<Entry>)
    ensures |r| == |reqs|
    ensures forall i :: 0 <= i < |r| ==> r[i] == EntryOf(i, reqs[i])
  {
    seq(|reqs|, i requires 0 <= i < |reqs| => EntryOf(i, reqs[i]))
  }

  lemma {:induction false} KeyUsedAppend(entries: seq<Entry>, e: Entry, key: Option<string>)
    requires key.Some?
    ensures KeyUsed(entries + [e], key) <==> KeyUsed(entries, key) || e.key == key
  {
    var all := entries + [e];
    assert all[|entries|] == e;
    assert forall j :: 0 <= j < |entries| ==> all[j] == entries[j];
  }

  /** A request leaves its key used if it is valid, and touches no other key. */
  lemma {:induction false} PostUsesKey(entries: seq<Entry>, req: PostRequest, key: Option<string>)
    requires key.Some?
    ensures KeyUsed(Post(entries, req), key) <==> KeyUsed(entries, key) || (IsValid(req) && req.key == key)
  {
    if Appends(entries, req) {
      KeyUsedAppend(entries, EntryOf(|entries|, req), key);
    }
  }

  /** Some valid request carries the key. */
  predicate Asked(reqs: seq<PostRequest>, key: Option<string>) {
    exists j :: 0 <= j < |reqs| && IsValid(reqs[j]) && reqs[j].key == key
  }

  lemma {:induction false} AskedAppend(reqs: seq<PostRequest>, req: PostRequest, key: Option<string>)
    ensures Asked(reqs + [req], key) <==> Asked(reqs, key) || (IsValid(req) && req.key == key)
  {
    var all := reqs + [req];
    assert all[|reqs|] == req;
    assert forall j :: 0 <= j < |reqs| ==> all[j] == reqs[j];
  }

  /** The keys in the journal are those of the valid requests so far. */
  lemma {:induction false} KeysOfJournal(reqs: seq<PostRequest>, key: Option<string>)
    requires key.Some?
    ensures KeyUsed(PostAll(reqs), key) <==> Asked(reqs, key)
    decreases |reqs|
  {
    if reqs == [] {
    } else {
      var init, last := reqs[..|reqs| - 1], reqs[|reqs| - 1];
      KeysOfJournal(init, key);
      PostUsesKey(PostAll(init), last, key);
      AskedAppend(init, last, key);
      assert reqs == init + [last];
    }
  }

  /** A request adds its entry exactly when it counts. */
  lemma {:induction false} AppendsIffFirst(reqs: seq<PostRequest>, n: nat)
    requires n < |reqs|
    ensures Appends(PostAll(reqs[..n]), reqs[n]) <==> IsFirst(reqs, n)
  {
    var init := reqs[..n];
    if reqs[n].key.Some? {
      KeysOfJournal(init, reqs[n].key);
      assert forall j :: 0 <= j < n ==> init[j] == reqs[j];
    }
  }

  lemma EntriesOfAppend(reqs: seq<PostRequest>, req: PostRequest)
    ensures EntriesOf(reqs + [req]) == EntriesOf(reqs) + [EntryOf(|reqs|, req)]
  {
  }

  /** The journal holds one entry per request that counts, in order, and nothing else. */
  lemma {:induction false} JournalIsFirsts(reqs: seq<PostRequest>)
    ensures PostAll(reqs) == EntriesOf(Firsts(reqs))
    decreases |reqs|
  {
    if reqs == [] {
    } else {
      var n := |reqs| - 1;
      JournalIsFirsts(reqs[..n]);
      AppendsIffFirst(reqs, n);
      EntriesOfAppend(Firsts(reqs[..n]), reqs[n]);
    }
  }

  /** Keeping only the requests that count keeps them all the next time. */
  lemma {:induction false} FirstsOfFirsts(reqs: seq<PostRequest>)
    ensures Firsts(Firsts(reqs)) == Firsts(reqs)
    ensures forall r :: r in Firsts(reqs) ==> r in reqs && IsValid(r)
    decreases |reqs|
  {
    if reqs == [] {
    } else {
      var n := |reqs| - 1;
      var init := reqs[..n];
      FirstsOfFirsts(init);
      if IsFirst(reqs, n) {
        var kept := Firsts(init);
        assert Firsts(reqs) == kept + [reqs[n]];
        assert (kept + [reqs[n]])[..|kept|] == kept;
        forall j | 0 <= j < |kept| && reqs[n].key.Some? ensures kept[j].key != reqs[n].key {
          assert kept[j] in init;
        }
        assert IsFirst(Firsts(reqs), |kept|);
      }
    }
  }

  /**
   Retrying is invisible: any stream of postings, with repeats and invalid requests anywhere,
   leaves the journal that its unkeyed valid requests and first valid request per key leave alone.
   */
  lemma RetriesAreInvisible(reqs: seq<PostRequest>)
    ensures PostAll(reqs) == PostAll(Firsts(reqs))
  {
    JournalIsFirsts(reqs);
    JournalIsFirsts(Firsts(reqs));
    FirstsOfFirsts(reqs);
  }

  /** Every entry comes from a request that counts. */
  lemma {:induction false} OriginOf(reqs: seq<PostRequest>, at: nat)
    requires at < |PostAll(reqs)|
    ensures exists j, id :: 0 <= j < |reqs| && IsFirst(reqs, j) && PostAll(reqs)[at] == EntryOf(id, reqs[j])
    decreases |reqs|
  {
    var n := |reqs| - 1;
    var init := reqs[..n];
    assert forall j :: 0 <= j < n ==> init[j] == reqs[j];
    if at < |PostAll(init)| {
      OriginOf(init, at);
      var j, id :| 0 <= j < n && IsFirst(init, j) && PostAll(init)[at] == EntryOf(id, init[j]);
      assert IsFirst(reqs, j);
      assert PostAll(reqs)[at] == EntryOf(id, reqs[j]);
    } else {
      if reqs[n].key.Some? {
        KeysOfJournal(init, reqs[n].key);
      }
      assert IsFirst(reqs, n);
      assert PostAll(reqs)[at] == EntryOf(at, reqs[n]);
    }
  }

  lemma {:induction false} FirstIsUnique(reqs: seq<PostRequest>, i: nat, j: nat)
    requires i < |reqs| && j < |reqs| && IsFirst(reqs, i) && IsFirst(reqs, j)
    requires reqs[i].key.Some? && reqs[i].key == reqs[j].key
    ensures i == j
  {
  }

  /** The first valid request under a key is the one whose entry the journal holds under it. */
  lemma {:induction false} FirstIsUnderKey(reqs: seq<PostRequest>, i: nat)
    requires i < |reqs| && IsFirst(reqs, i) && reqs[i].key.Some?
    ensures KeyUsed(PostAll(reqs), reqs[i].key)
    ensures var at := FindKey(PostAll(reqs), reqs[i].key);
      exists id :: PostAll(reqs)[at] == EntryOf(id, reqs[i])
  {
    KeysOfJournal(reqs, reqs[i].key);
    var at := FindKey(PostAll(reqs), reqs[i].key);
    OriginOf(reqs, at);
    var j, id :| 0 <= j < |reqs| && IsFirst(reqs, j) && PostAll(reqs)[at] == EntryOf(id, reqs[j]);
    FirstIsUnique(reqs, i, j);
  }

  /**
   Posting again under a used non-empty key returns the entry of the first valid request with
   that key, whatever the new request says, and changes nothing. A used empty key is refused.
   */
  lemma {:induction false} DuplicateReturnsOriginal(reqs: seq<PostRequest>, i: nat, again: PostRequest)
    requires i < |reqs| && IsFirst(reqs, i) && reqs[i].key.Some? && again.key == reqs[i].key
    ensures var entries := PostAll(reqs);
      && Post(entries, again) == entries
      && (Truthy(again.key) ==>
            exists id :: PostOutcome(entries, again) == Ok(EntryOf(id, reqs[i])) && EntryOf(id, reqs[i]) in entries)
      && (again.key == Some("") ==> PostOutcome(entries, again).Err?)
      && (again.key == Some("") && IsValid(again) ==> PostOutcome(entries, again) == Err(KeyTaken))
    decreases |reqs|
  {
    FirstIsUnderKey(reqs, i);
  }

  /**
   Neither the look-up nor the unique index asks for the merchant: a used key gives its caller an
   entry of the caller's own merchant exactly when the first valid request under the key was that
   merchant's. Either way nothing is stored.
   */
  lemma {:induction false} KeyIgnoresMerchant(reqs: seq<PostRequest>, i: nat, again: PostRequest)
    requires i < |reqs| && IsFirst(reqs, i) && Truthy(reqs[i].key) && again.key == reqs[i].key
    ensures var r := PostOutcome(PostAll(reqs), again);
      && Post(PostAll(reqs), again) == PostAll(reqs)
      && r.Ok? && (r.value.merchant == again.merchant <==> reqs[i].merchant == again.merchant)
  {
    DuplicateReturnsOriginal(reqs, i, again);
  }

  /** Debit one account code and credit another with the same positive amount. */
  function Transfer(amount: int): seq<LineInput> {
    [LineInput("1000", Some(amount), Some(DEBIT)), LineInput("2000", Some(amount), Some(CREDIT))]
  }

  lemma {:induction false} TransferIsValid(amount: int)
    requires amount > 0
    ensures ValidationError(Transfer(amount)).None?
  {
    var lines := Transfer(amount);
    assert lines[..0] == [] && lines[..2] == lines;
    NextLine(lines, 0);
    NextLine(lines, 1);
  }

  /** A valid request can be answered with another merchant's entry, and not be stored. */
  lemma {:induction false} AnotherMerchantsEntry()
    ensures exists first: PostRequest, again: PostRequest ::
      && first.merchant != again.merchant && IsValid(first) && IsValid(again)
      && var r := PostOutcome(PostAll([first]), again);
         r.Ok? && r.value.merchant == first.merchant && Post(PostAll([first]), again) == PostAll([first])
  {
    var first := PostRequest("a", "acc", "", Transfer(1), Some("k"));
    var again := first.(merchant := "b");
    TransferIsValid(1);
    assert "a" != "b";
    assert IsFirst([first], 0);
    DuplicateReturnsOriginal([first], 0, again);
  }
}
