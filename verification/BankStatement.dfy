/**
 Bank statement import: rows are normalised, deduplicated by a key over merchant and row
 content, and stored; and the reconciliation of stored entries against transactions.
 The hash of the key is taken to be injective, so the key itself stands for it.
 */
module BankStatement {
  import opened Common

  /** One row of a file with its texts stripped; `date` is missing when absent or unparsable. */
  datatype RawRow = RawRow(
    description: string,
    date: Option<int>,
    reference: string,
    debit: int,
    credit: int,
    currency: string,
    balance: Option<int>,
    counterparty: string)

  /** The normalised row; the running balance and the counterparty are stored with it. */
  datatype Row = Row(
    entryDate: int,
    description: string,
    reference: Option<string>,
    debit: int,
    credit: int,
    currency: string,
    balance: Option<int>,
    counterparty: Option<string>)

  /**
   What the hash covers: neither balance nor counterparty nor bank account. A missing reference is
   hashed as the text "None".
   */
  datatype Key = Key(
    merchant: string,
    entryDate: int,
    description: string,
    debit: int,
    credit: int,
    reference: string,
    currency: string)

  /** Whose import an entry comes from, which one, and into which bank account, if one was named. */
  datatype Origin = Origin(merchant: string, importId: string, account: Option<string>)

  datatype Entry = Entry(origin: Origin, row: Row)

  /** An empty text reads as missing. */
  function NonEmpty(text: string): Option<string> {
    if text == "" then None else Some(text)
  }

  function Normalize(raw: RawRow): Option<Row> {
    if raw.description == "" || raw.date.None? then None
    else
      Some(Row(raw.date.value, raw.description, NonEmpty(raw.reference), raw.debit, raw.credit, raw.currency,
               raw.balance, NonEmpty(raw.counterparty)))
  }

  function ReferenceText(reference: Option<string>): string {
    if reference.Some? then reference.value else "None"
  }

  function RowKey(merchant: string, row: Row): Key {
    Key(merchant, row.entryDate, row.description, row.debit, row.credit, ReferenceText(row.reference), row.currency)
  }

  function EntryKey(e: Entry): Key {
    RowKey(e.origin.merchant, e.row)
  }

  // ----- import -----

  predicate HasKey(entries: seq<Entry>, key: Key) {
    exists i :: 0 <= i < |entries| && EntryKey(entries[i]) == key
  }

  /** The unique index on the hash; it makes every look-up by key find at most one row. */
  predicate KeysUnique(entries: seq<Entry>) {
    forall i, j :: 0 <= i < j < |entries| ==> EntryKey(entries[i]) != EntryKey(entries[j])
  }

  function WithRow(entries: seq<Entry>, origin: Origin, raw: RawRow): seq<Entry> {
    var row := Normalize(raw);
    if row.None? || HasKey(entries, RowKey(origin.merchant, row.value)) then entries
    else entries + [Entry(origin, row.value)]
  }

  /** The entry table after importing the rows. */
  function Imported(entries: seq<Entry>, origin: Origin, raws: seq<RawRow>): seq<Entry> {
    if raws == [] then entries
    else WithRow(Imported(entries, origin, raws[..|raws| - 1]), origin, raws[|raws| - 1])
  }

  /** One-based numbers of the rows that cannot be normalised. */
  function FailedRows(raws: seq<RawRow>): seq<nat> {
    if raws == [] then []
    else
      var init := FailedRows(raws[..|raws| - 1]);
      if Normalize(raws[|raws| - 1]).None? then init + [|raws|] else init
  }

  /** One row further in the import loop. */
  lemma {:induction false} NextRow(entries: seq<Entry>, origin: Origin, raws: seq<RawRow>, i: nat)
    requires i < |raws|
    ensures Imported(entries, origin, raws[..i + 1]) == WithRow(Imported(entries, origin, raws[..i]), origin, raws[i])
    ensures FailedRows(raws[..i + 1])
         == if Normalize(raws[i]).None? then FailedRows(raws[..i]) + [i + 1] else FailedRows(raws[..i])
  {
    assert raws[..i + 1][..i] == raws[..i];
  }

  datatype ImportStatus = Uploaded | Processing | Completed | Failed

  class ImportRecord {
    const origin: Origin
    var status: ImportStatus
    var totalRows: nat
    var processedRows: nat
    var failedRows: nat
    var errors: seq<nat>

    constructor (origin: Origin)
      ensures this.origin == origin && status == Uploaded
    {
      this.origin := origin;
      status, totalRows, processedRows, failedRows, errors := Uploaded, 0, 0, 0, [];
    }
  }

  // ----- reconciliation -----

  datatype Txn = Txn(
    id: string,
    merchant: string,
    currency: string,
    amount: int,
    internalReference: Option<string>,
    externalReference: Option<string>,
    providerId: string,
    initiatedAt: Option<int>)

  /** The reconciliation of one entry: the transaction matched, if any, and a confidence in basis points. */
  datatype Recon = Recon(importId: string, merchant: string, entry: Entry, txn: Option<string>, confidence: nat)

  datatype Tally = Tally(matched: nat, unmatched: nat, total: nat)

  datatype ReconError = ImportNotFound | MerchantMismatch

  const WEEK := 7 * 24 * 3600

  /** Credit if there is one, else debit. */
  function AmountOf(row: Row): int {
    if row.credit != 0 then row.credit else row.debit
  }

  /** The candidate query; without reference and amount it asks for merchant and currency only. */
  predicate Matches(e: Entry, t: Txn) {
    && t.merchant == e.origin.merchant && t.currency == e.row.currency
    && if Truthy(e.row.reference) then
         t.internalReference == e.row.reference || t.externalReference == e.row.reference
         || t.providerId == e.row.reference.value
       else if AmountOf(e.row) != 0 then
         && t.amount == AmountOf(e.row) && t.initiatedAt.Some?
         && e.row.entryDate - WEEK <= t.initiatedAt.value <= e.row.entryDate + WEEK
       else true
  }

  predicate HasMatch(e: Entry, txns: seq<Txn>) {
    exists i :: 0 <= i < |txns| && Matches(e, txns[i])
  }

  /** A recorded outcome names a matching transaction exactly when there is one. */
  predicate SoundRecon(r: Recon, e: Entry, importId: string, txns: seq<Txn>) {
    && r.importId == importId && r.merchant == e.origin.merchant && r.entry == e
    && (r.txn.Some? <==> HasMatch(e, txns))
    && (r.txn.Some? ==> exists i :: 0 <= i < |txns| && Matches(e, txns[i]) && txns[i].id == r.txn.value)
    && r.confidence == if r.txn.None? then 0 else if Truthy(e.row.reference) then 9500 else 7500
  }

  /** One sound outcome for each entry, in order. */
  predicate SoundRecons(outcomes: seq<Recon>, entries: seq<Entry>, importId: string, txns: seq<Txn>) {
    && |outcomes| == |entries|
    && forall k :: 0 <= k < |entries| ==> SoundRecon(outcomes[k], entries[k], importId, txns)
  }

  predicate OfImport(e: Entry, importId: string, merchant: string) {
    e.origin.importId == importId && e.origin.merchant == merchant
  }

  function EntriesOf(entries: seq<Entry>, importId: string, merchant: string): seq<Entry> {
    if entries == [] then []
    else
      var n := |entries| - 1;
      var init := EntriesOf(entries[..n], importId, merchant);
      if OfImport(entries[n], importId, merchant) then init + [entries[n]] else init
  }

  function CountMatched(entries: seq<Entry>, txns: seq<Txn>): (c: nat)
    ensures c <= |entries|
  {
    if entries == [] then 0
    else CountMatched(entries[..|entries| - 1], txns) + if HasMatch(entries[|entries| - 1], txns) then 1 else 0
  }

  /** One entry further in the reconciliation loop. */
  lemma {:induction false} NextRecon(
      outcomes: seq<Recon>, next: Recon, entries: seq<Entry>, k: nat, importId: string, txns: seq<Txn>)
    requires k < |entries| && SoundRecons(outcomes, entries[..k], importId, txns)
    requires SoundRecon(next, entries[k], importId, txns)
    ensures SoundRecons(outcomes + [next], entries[..k + 1], importId, txns)
    ensures CountMatched(entries[..k + 1], txns) == CountMatched(entries[..k], txns) + if next.txn.Some? then 1 else 0
  {
    assert entries[..k + 1][..k] == entries[..k];
  }

  // ----- the service -----

  class BankStatementService {
    var entries: seq<Entry>
    var recons: seq<Recon>

    constructor ()
      ensures entries == [] && recons == []
    {
      entries, recons := [], [];
    }

    /** The body of the row loop: false if the row cannot be normalised; a known key stores nothing. */
    method ImportRow(origin: Origin, raw: RawRow) returns (ok: bool)
      modifies this`entries
      ensures ok == Normalize(raw).Some? && entries == WithRow(old(entries), origin, raw)
    {
      var normalized := Normalize(raw);
      if normalized.None? {
        return false;
      }
      if !HasKey(entries, RowKey(origin.merchant, normalized.value)) {
        entries := entries + [Entry(origin, normalized.value)];
      }
      return true;
    }

    /** The row loop, the same for both file formats. */
    method ImportRows(origin: Origin, raws: seq<RawRow>) returns (processed: nat, errors: seq<nat>)
      modifies this`entries
      ensures entries == Imported(old(entries), origin, raws)
      ensures errors == FailedRows(raws) && processed + |errors| == |raws|
    {
      processed, errors := 0, [];
      var idx := 0;
      while idx < |raws|
        invariant 0 <= idx <= |raws|
        invariant entries == Imported(old(entries), origin, raws[..idx])
        invariant errors == FailedRows(raws[..idx]) && processed + |errors| == idx
      {
        NextRow(old(entries), origin, raws, idx);
        var ok := ImportRow(origin, raws[idx]);
        if ok {
          processed := processed + 1;
        } else {
          errors := errors + [idx + 1];
        }
        idx := idx + 1;
      }
      assert raws[..idx] == raws;
    }

    method ProcessImport(rec: ImportRecord, raws: seq<RawRow>)
      modifies this`entries, rec
      ensures entries == Imported(old(entries), rec.origin, raws)
      ensures rec.totalRows == |raws| && rec.errors == FailedRows(raws)
      ensures rec.failedRows == |rec.errors| && rec.processedRows + rec.failedRows == rec.totalRows
      ensures rec.status == if rec.failedRows > 0 && rec.processedRows == 0 then Failed else Completed
    {
      rec.status := Processing;
      rec.totalRows := |raws|;
      var processed, errors := ImportRows(rec.origin, raws);
      var failed := |errors|;
      rec.processedRows := processed;
      rec.failedRows := failed;
      rec.errors := errors;
      rec.status := if failed == 0 then Completed else if processed == 0 then Failed else Completed;
    }

    /** A workbook that cannot be parsed fails the import and stores nothing. */
    method ProcessXlsxImport(rec: ImportRecord, parsed: Option<seq<RawRow>>)
      modifies this`entries, rec
      ensures parsed.None? ==>
        && rec.status == Failed && entries == old(entries)
        && rec.totalRows == old(rec.totalRows)
        && rec.processedRows == old(rec.processedRows) && rec.failedRows == old(rec.failedRows)
      ensures parsed.Some? ==> entries == Imported(old(entries), rec.origin, parsed.value)
      ensures parsed.Some? ==>
        && rec.totalRows == |parsed.value| && rec.errors == FailedRows(parsed.value)
        && rec.failedRows == |rec.errors| && rec.processedRows + rec.failedRows == rec.totalRows
        && rec.status == if rec.failedRows > 0 && rec.processedRows == 0 then Failed else Completed
    {
      rec.status := Processing;
      if parsed.None? {
        rec.status := Failed;
        return;
      }
      ProcessImport(rec, parsed.value);
    }

    /** Looks for any matching transaction and records the outcome. */
    method ReconcileEntry(entry: Entry, importId: string, txns: seq<Txn>) returns (recon: Recon)
      modifies this`recons
      ensures recons == old(recons) + [recon]
      ensures SoundRecon(recon, entry, importId, txns)
    {
      if exists i :: 0 <= i < |txns| && Matches(entry, txns[i]) {
        var i :| 0 <= i < |txns| && Matches(entry, txns[i]);
        var confidence := if Truthy(entry.row.reference) then 9500 else 7500;
        recon := Recon(importId, entry.origin.merchant, entry, Some(txns[i].id), confidence);
      } else {
        recon := Recon(importId, entry.origin.merchant, entry, None, 0);
      }
      recons := recons + [recon];
    }

    method ReconcileImport(owner: Option<string>, importId: string, merchant: string, txns: seq<Txn>)
      returns (r: Result<Tally, ReconError>)
      modifies this`recons
      ensures r.Ok? <==> owner == Some(merchant)
      ensures r.Err? ==> recons == old(recons) && r.error == if owner.None? then ImportNotFound else MerchantMismatch
      ensures r.Ok? ==>
        var todo := EntriesOf(entries, importId, merchant);
        && r.value == Tally(CountMatched(todo, txns), |todo| - CountMatched(todo, txns), |todo|)
        && old(recons) <= recons
        && SoundRecons(recons[|old(recons)|..], todo, importId, txns)
    {
      if owner.None? {
        return Err(ImportNotFound);
      }
      if owner.value != merchant {
        return Err(MerchantMismatch);
      }
      var todo := EntriesOf(entries, importId, merchant);
      var matched, unmatched, k := 0, 0, 0;
      ghost var added: seq<Recon> := [];
      while k < |todo|
        invariant 0 <= k <= |todo|
        invariant entries == old(entries)
        invariant matched == CountMatched(todo[..k], txns) && matched + unmatched == k
        invariant recons == old(recons) + added && SoundRecons(added, todo[..k], importId, txns)
      {
        var recon := ReconcileEntry(todo[k], importId, txns);
        NextRecon(added, recon, todo, k, importId, txns);
        added := added + [recon];
        if recon.txn.Some? {
          matched := matched + 1;
        } else {
          unmatched := unmatched + 1;
        }
        k := k + 1;
      }
      assert todo[..k] == todo;
      assert recons[|old(recons)|..] == added;
      return Ok(Tally(matched, unmatched, |todo|));
    }
  }

  // ----- import: main results -----

  /** The row has the date, texts and amounts of the file's row; empty reference and counterparty are missing. */
  predicate IsRowOf(row: Row, raw: RawRow) {
    && raw.date == Some(row.entryDate) && row.description == raw.description
    && row.debit == raw.debit && row.credit == raw.credit && row.currency == raw.currency
    && row.balance == raw.balance
    && row.reference == (if raw.reference != "" then Some(raw.reference) else None)
    && row.counterparty == (if raw.counterparty != "" then Some(raw.counterparty) else None)
  }

  /** A row can be normalised exactly when it has a description and a date, and loses nothing by it. */
  lemma NormalizeKeepsAll(raw: RawRow)
    ensures Normalize(raw).Some? <==> raw.description != "" && raw.date.Some?
    ensures Normalize(raw).Some? ==> IsRowOf(Normalize(raw).value, raw)
  {
  }

  /** The failed rows are named, from one on and in order, exactly where description or date is missing. */
  lemma {:induction false} FailedRowsAreExact(raws: seq<RawRow>)
    ensures forall n: nat ::
      n in FailedRows(raws) <==> 1 <= n <= |raws| && (raws[n - 1].description == "" || raws[n - 1].date == None)
    ensures forall i, j :: 0 <= i < j < |FailedRows(raws)| ==> FailedRows(raws)[i] < FailedRows(raws)[j]
  {
    if raws == [] {
    } else {
      var init := raws[..|raws| - 1];
      FailedRowsAreExact(init);
      NormalizeKeepsAll(raws[|raws| - 1]);
      assert forall i :: 0 <= i < |FailedRows(init)| ==> FailedRows(init)[i] in FailedRows(init);
    }
  }

  function KeySet(entries: seq<Entry>): set<Key> {
    set i | 0 <= i < |entries| :: EntryKey(entries[i])
  }

  /** The keys of the rows of a file that can be normalised. */
  function FileKeys(merchant: string, raws: seq<RawRow>): set<Key> {
    set i | 0 <= i < |raws| && Normalize(raws[i]).Some? :: RowKey(merchant, Normalize(raws[i]).value)
  }

  lemma FileKeysAppend(merchant: string, raws: seq<RawRow>, raw: RawRow)
    ensures FileKeys(merchant, raws + [raw])
         == FileKeys(merchant, raws) + if Normalize(raw).Some? then {RowKey(merchant, Normalize(raw).value)} else {}
  {
    var all := raws + [raw];
    assert all[|raws|] == raw;
    assert forall i :: 0 <= i < |raws| ==> all[i] == raws[i];
    forall k | k in FileKeys(merchant, raws) ensures k in FileKeys(merchant, all) {
      var i :| 0 <= i < |raws| && Normalize(raws[i]).Some? && RowKey(merchant, Normalize(raws[i]).value) == k;
      assert all[i] == raws[i];
    }
  }

  lemma KeySetAppend(entries: seq<Entry>, e: Entry)
    ensures KeySet(entries + [e]) == KeySet(entries) + {EntryKey(e)}
  {
    var all := entries + [e];
    assert all[|entries|] == e;
    forall k | k in KeySet(entries) ensures k in KeySet(all) {
      var i :| 0 <= i < |entries| && EntryKey(entries[i]) == k;
      assert EntryKey(all[i]) == k;
    }
    forall i | 0 <= i < |entries| ensures EntryKey(all[i]) in KeySet(entries) {
      assert all[i] == entries[i];
    }
  }

  lemma RowAddsItsKey(entries: seq<Entry>, origin: Origin, raw: RawRow)
    requires KeysUnique(entries)
    ensures var after := WithRow(entries, origin, raw);
      && entries <= after && KeysUnique(after)
      && KeySet(after)
         == KeySet(entries) + if Normalize(raw).Some? then {RowKey(origin.merchant, Normalize(raw).value)} else {}
  {
    var row := Normalize(raw);
    if row.Some? {
      KeySetAppend(entries, Entry(origin, row.value));
    }
  }

  /**
   An import keeps what was stored, keeps keys unique (so no look-up can find two rows), and
   leaves exactly the old keys and the file's keys.
   */
  lemma {:induction false} ImportAddsFileKeys(entries: seq<Entry>, origin: Origin, raws: seq<RawRow>)
    requires KeysUnique(entries)
    ensures var after := Imported(entries, origin, raws);
      && entries <= after && KeysUnique(after)
      && KeySet(after) == KeySet(entries) + FileKeys(origin.merchant, raws)
    decreases |raws|
  {
    if raws == [] {
    } else {
      var n := |raws| - 1;
      var init := raws[..n];
      ImportAddsFileKeys(entries, origin, init);
      var before := Imported(entries, origin, init);
      FileKeysAppend(origin.merchant, init, raws[n]);
      assert raws == init + [raws[n]];
      RowAddsItsKey(before, origin, raws[n]);
    }
  }

  lemma {:induction false} SizeIsKeyCount(entries: seq<Entry>)
    requires KeysUnique(entries)
    ensures |KeySet(entries)| == |entries|
  {
    if entries == [] {
    } else {
      var init, last := entries[..|entries| - 1], entries[|entries| - 1];
      assert entries == init + [last];
      SizeIsKeyCount(init);
      KeySetAppend(init, last);
      assert forall i :: 0 <= i < |init| ==> init[i] == entries[i] && EntryKey(init[i]) != EntryKey(last);
    }
  }

  /** Importing a file whose keys are all stored changes nothing. */
  lemma {:induction false} KnownKeysAddNothing(entries: seq<Entry>, origin: Origin, raws: seq<RawRow>)
    requires FileKeys(origin.merchant, raws) <= KeySet(entries)
    ensures Imported(entries, origin, raws) == entries
    decreases |raws|
  {
    if raws == [] {
    } else {
      var n := |raws| - 1;
      FileKeysAppend(origin.merchant, raws[..n], raws[n]);
      assert raws == raws[..n] + [raws[n]];
      KnownKeysAddNothing(entries, origin, raws[..n]);
    }
  }

  /** Importing a file again, under any import id and even for another bank account, adds nothing. */
  lemma ReimportAddsNothing(entries: seq<Entry>, first: Origin, again: Origin, raws: seq<RawRow>)
    requires KeysUnique(entries) && first.merchant == again.merchant
    ensures var once := Imported(entries, first, raws);
      Imported(once, again, raws) == once
  {
    ImportAddsFileKeys(entries, first, raws);
    KnownKeysAddNothing(Imported(entries, first, raws), again, raws);
  }

  lemma {:induction false} KeysOfTwo(entries: seq<Entry>, o1: Origin, f1: seq<RawRow>, o2: Origin, f2: seq<RawRow>)
    requires KeysUnique(entries)
    ensures var after := Imported(Imported(entries, o1, f1), o2, f2);
      && KeySet(after) == KeySet(entries) + FileKeys(o1.merchant, f1) + FileKeys(o2.merchant, f2)
      && |after| == |KeySet(after)|
  {
    ImportAddsFileKeys(entries, o1, f1);
    ImportAddsFileKeys(Imported(entries, o1, f1), o2, f2);
    SizeIsKeyCount(Imported(Imported(entries, o1, f1), o2, f2));
  }

  /** Two files imported in either order leave the same keys and equally many entries. */
  lemma {:induction false} ImportOrderDoesNotMatter(
      entries: seq<Entry>, o1: Origin, f1: seq<RawRow>, o2: Origin, f2: seq<RawRow>)
    requires KeysUnique(entries)
    ensures var a := Imported(Imported(entries, o1, f1), o2, f2);
      var b := Imported(Imported(entries, o2, f2), o1, f1);
      KeySet(a) == KeySet(b) && |a| == |b|
  {
    KeysOfTwo(entries, o1, f1, o2, f2);
    KeysOfTwo(entries, o2, f2, o1, f1);
  }

  // ----- import: what deduplication loses -----

  /** One reference is missing and the other is the text "None". */
  predicate NoneTwins(a: Option<string>, b: Option<string>) {
    (a == None && b == Some("None")) || (a == Some("None") && b == None)
  }

  /** The rows agree in all that the hash covers; balance and counterparty may differ. */
  predicate AgreeOnHashed(a: Row, b: Row) {
    && a.(reference := None, balance := None, counterparty := None)
       == b.(reference := None, balance := None, counterparty := None)
    && (a.reference == b.reference || NoneTwins(a.reference, b.reference))
  }

  /** Rows of a merchant share a key exactly in that case. */
  lemma KeyCollision(merchant: string, a: Row, b: Row)
    ensures RowKey(merchant, a) == RowKey(merchant, b) <==> AgreeOnHashed(a, b)
  {
  }

  predicate SameButImport(e: Entry, f: Entry) {
    e.row == f.row && e.origin.merchant == f.origin.merchant && e.origin.account == f.origin.account
  }

  /** The table has an entry with this row for the origin's merchant and bank account, from whatever import. */
  predicate Stores(entries: seq<Entry>, origin: Origin, row: Row) {
    exists i :: 0 <= i < |entries| && SameButImport(entries[i], Entry(origin, row))
  }

  /** The entry stored under a key. */
  function EntryUnder(entries: seq<Entry>, key: Key): Option<Entry> {
    if entries == [] then None
    else
      var init := EntryUnder(entries[..|entries| - 1], key);
      var last := entries[|entries| - 1];
      if init.Some? then init else if EntryKey(last) == key then Some(last) else None
  }

  /** The entry that the first row of a file with the key asks for. */
  function FirstWithKey(origin: Origin, raws: seq<RawRow>, key: Key): Option<Entry> {
    if raws == [] then None
    else
      var init := FirstWithKey(origin, raws[..|raws| - 1], key);
      var row := Normalize(raws[|raws| - 1]);
      if init.Some? then init
      else if row.Some? && RowKey(origin.merchant, row.value) == key then Some(Entry(origin, row.value))
      else None
  }

  lemma {:induction false} EntryUnderIsThere(entries: seq<Entry>, key: Key)
    ensures EntryUnder(entries, key).Some? <==> HasKey(entries, key)
    ensures EntryUnder(entries, key).Some? ==>
      && EntryKey(EntryUnder(entries, key).value) == key
      && exists i :: 0 <= i < |entries| && entries[i] == EntryUnder(entries, key).value
  {
    if entries == [] {
    } else {
      var n := |entries| - 1;
      var init := entries[..n];
      EntryUnderIsThere(init, key);
      assert forall i :: 0 <= i < n ==> init[i] == entries[i];
      assert EntryKey(entries[n]) == key ==> HasKey(entries, key);
      if HasKey(init, key) {
        var i :| 0 <= i < n && EntryKey(init[i]) == key;
        assert EntryKey(entries[i]) == key;
      }
    }
  }

  /** Under each key, what was stored stays; otherwise the file's first row with that key is stored. */
  lemma {:induction false} FirstWins(entries: seq<Entry>, origin: Origin, raws: seq<RawRow>, key: Key)
    ensures EntryUnder(Imported(entries, origin, raws), key)
         == if EntryUnder(entries, key).Some? then EntryUnder(entries, key) else FirstWithKey(origin, raws, key)
    decreases |raws|
  {
    if raws == [] {
    } else {
      var n := |raws| - 1;
      FirstWins(entries, origin, raws[..n], key);
      var before, row := Imported(entries, origin, raws[..n]), Normalize(raws[n]);
      if row.Some? {
        EntryUnderIsThere(before, RowKey(origin.merchant, row.value));
        var e := Entry(origin, row.value);
        assert (before + [e])[..|before|] == before;
      }
    }
  }

  lemma {:induction false} FirstWithKeySound(origin: Origin, raws: seq<RawRow>, key: Key)
    ensures var first := FirstWithKey(origin, raws, key); first.Some? ==> EntryKey(first.value) == key
  {
    if raws == [] {
    } else {
      FirstWithKeySound(origin, raws[..|raws| - 1], key);
    }
  }

  lemma {:induction false} FirstWithKeyExists(origin: Origin, raws: seq<RawRow>, k: nat)
    requires k < |raws| && Normalize(raws[k]).Some?
    ensures var key := RowKey(origin.merchant, Normalize(raws[k]).value);
      var first := FirstWithKey(origin, raws, key);
      first.Some? && EntryKey(first.value) == key
    decreases |raws|
  {
    var n := |raws| - 1;
    if k < n {
      FirstWithKeyExists(origin, raws[..n], k);
    } else {
      FirstWithKeySound(origin, raws, RowKey(origin.merchant, Normalize(raws[k]).value));
    }
  }

  /** The entry that an import keeps under a row's key. */
  function Keeper(entries: seq<Entry>, origin: Origin, raws: seq<RawRow>, row: Row): Option<Entry> {
    var key := RowKey(origin.merchant, row);
    if EntryUnder(entries, key).Some? then EntryUnder(entries, key) else FirstWithKey(origin, raws, key)
  }

  /** A table with unique keys stores a row exactly when the entry under its key is that row for that bank account. */
  lemma {:induction false} StoredIffUnderKey(entries: seq<Entry>, origin: Origin, row: Row)
    requires KeysUnique(entries) && EntryUnder(entries, RowKey(origin.merchant, row)).Some?
    ensures Stores(entries, origin, row)
       <==> SameButImport(EntryUnder(entries, RowKey(origin.merchant, row)).value, Entry(origin, row))
  {
    var key := RowKey(origin.merchant, row);
    EntryUnderIsThere(entries, key);
    var i :| 0 <= i < |entries| && entries[i] == EntryUnder(entries, key).value;
    if j :| 0 <= j < |entries| && SameButImport(entries[j], Entry(origin, row)) {
      assert EntryKey(entries[j]) == key;
      assert i == j;
    }
  }

  /**
   A valid row always finds an entry under its key that agrees with it in all that the hash
   covers, stored before or first in the file. The row itself is in the table after the import
   exactly when that entry is the same row for the same bank account: one that differs in balance
   or counterparty only, in the "None" reference, or in its bank account is lost.
   */
  lemma {:induction false} RowStoredIff(entries: seq<Entry>, origin: Origin, raws: seq<RawRow>, k: nat)
    requires KeysUnique(entries) && k < |raws| && Normalize(raws[k]).Some?
    ensures var row := Normalize(raws[k]).value;
      var keeper := Keeper(entries, origin, raws, row);
      && keeper.Some?
      && keeper.value.origin.merchant == origin.merchant && AgreeOnHashed(row, keeper.value.row)
      && (Stores(Imported(entries, origin, raws), origin, row)
          <==> row == keeper.value.row && origin.account == keeper.value.origin.account)
  {
    var row, after := Normalize(raws[k]).value, Imported(entries, origin, raws);
    var key := RowKey(origin.merchant, row);
    ImportAddsFileKeys(entries, origin, raws);
    FirstWins(entries, origin, raws, key);
    FirstWithKeyExists(origin, raws, k);
    EntryUnderIsThere(entries, key);
    StoredIffUnderKey(after, origin, row);
    KeyCollision(origin.merchant, row, Keeper(entries, origin, raws, row).value.row);
  }

  const ORIGIN := Origin("m", "i", Some("account"))

  /** Two different rows that both count as processed although only one is stored. */
  predicate Drops(raws: seq<RawRow>) {
    && |raws| == 2 && FailedRows(raws) == [] && Normalize(raws[0]) != Normalize(raws[1])
    && |Imported([], ORIGIN, raws)| == 1
  }

  /** A file of two valid rows with the same key stores the first one only. */
  lemma {:induction false} SecondIsDropped(origin: Origin, a: RawRow, b: RawRow)
    requires Normalize(a).Some? && Normalize(b).Some?
    requires AgreeOnHashed(Normalize(a).value, Normalize(b).value)
    ensures FailedRows([a, b]) == []
    ensures Imported([], origin, [a, b]) == [Entry(origin, Normalize(a).value)]
  {
    assert [a, b][..1] == [a] && [a][..0] == [];
    var one := [Entry(origin, Normalize(a).value)];
    assert WithRow([], origin, a) == one;
    assert Imported([], origin, [a]) == WithRow(Imported([], origin, []), origin, a);
    assert FailedRows([a]) == [];
    KeyCollision(origin.merchant, Normalize(a).value, Normalize(b).value);
    assert EntryKey(one[0]) == RowKey(origin.merchant, Normalize(b).value);
  }

  const FEE := RawRow("fee", Some(0), "", 50, 0, "NGN", Some(1000), "")

  lemma NoneCollisionDropsARow()
    ensures exists raws :: Drops(raws)
  {
    var twin := FEE.(reference := "None");
    assert twin.reference != "" && FEE.description != "";
    SecondIsDropped(ORIGIN, FEE, twin);
    assert Drops([FEE, twin]);
  }

  /** Two equal fees on one day, told apart only by the running balance. */
  lemma BalanceCollisionDropsARow()
    ensures exists raws: seq<RawRow> :: Drops(raws) && raws[1] == raws[0].(balance := raws[1].balance)
  {
    var second := FEE.(balance := Some(950));
    assert FEE.description != "";
    SecondIsDropped(ORIGIN, FEE, second);
    assert Drops([FEE, second]);
  }

  /** A row already stored for one bank account is not stored for another of the same merchant. */
  lemma {:induction false} SecondAccountGetsNothing(raw: RawRow, first: Origin, second: Origin)
    requires Normalize(raw).Some? && first.merchant == second.merchant && first.account != second.account
    ensures var after := Imported(Imported([], first, [raw]), second, [raw]);
      Stores(after, first, Normalize(raw).value) && !Stores(after, second, Normalize(raw).value)
  {
    var one := [Entry(first, Normalize(raw).value)];
    assert [raw][..0] == [];
    assert WithRow([], first, raw) == one;
    assert Imported([], first, [raw]) == WithRow(Imported([], first, []), first, raw);
    ReimportAddsNothing([], first, second, [raw]);
    assert SameButImport(one[0], Entry(first, Normalize(raw).value));
  }

  // ----- reconciliation: main results -----

  /** More transactions never turn a matched entry into an unmatched one. */
  lemma {:induction false} MatchingIsMonotone(entries: seq<Entry>, txns: seq<Txn>, more: seq<Txn>)
    ensures CountMatched(entries, txns) <= CountMatched(entries, txns + more)
  {
    if entries == [] {
    } else {
      var n := |entries| - 1;
      MatchingIsMonotone(entries[..n], txns, more);
      if HasMatch(entries[n], txns) {
        var i :| 0 <= i < |txns| && Matches(entries[n], txns[i]);
        assert (txns + more)[i] == txns[i];
      }
    }
  }

  lemma {:induction false} NoEntriesOf(entries: seq<Entry>, importId: string, merchant: string)
    requires forall i :: 0 <= i < |entries| ==> entries[i].origin.importId != importId
    ensures EntriesOf(entries, importId, merchant) == []
  {
    if entries == [] {
    } else {
      NoEntriesOf(entries[..|entries| - 1], importId, merchant);
    }
  }

  /** A further entry belongs to the import and merchant that it names, and to no other. */
  lemma EntriesOfAppend(entries: seq<Entry>, e: Entry, importId: string, merchant: string)
    ensures EntriesOf(entries + [e], importId, merchant)
         == if OfImport(e, importId, merchant) then EntriesOf(entries, importId, merchant) + [e]
            else EntriesOf(entries, importId, merchant)
  {
    assert (entries + [e])[..|entries|] == entries;
  }

  /** Beyond the earlier entries there are exactly those of the import. */
  predicate Owns(earlier: seq<Entry>, after: seq<Entry>, origin: Origin) {
    after == earlier + EntriesOf(after, origin.importId, origin.merchant)
  }

  lemma RowIsOwned(earlier: seq<Entry>, before: seq<Entry>, origin: Origin, raw: RawRow)
    requires Owns(earlier, before, origin)
    ensures Owns(earlier, WithRow(before, origin, raw), origin)
  {
    var after := WithRow(before, origin, raw);
    if after != before {
      var e := after[|before|];
      EntriesOfAppend(before, e, origin.importId, origin.merchant);
      var mine := EntriesOf(before, origin.importId, origin.merchant);
      assert earlier + (mine + [e]) == (earlier + mine) + [e];
    }
  }

  predicate NoneFrom(entries: seq<Entry>, importId: string) {
    forall i :: 0 <= i < |entries| ==> entries[i].origin.importId != importId
  }

  /**
   The reconciliations of two imports never overlap: an import under a new id owns exactly the
   entries that it added, in their order, and leaves the entries of every other import as they were.
   */
  lemma {:induction false} ImportOwnsItsEntries(
      entries: seq<Entry>, origin: Origin, raws: seq<RawRow>, other: string, owner: string)
    requires NoneFrom(entries, origin.importId)
    ensures var after := Imported(entries, origin, raws);
      && Owns(entries, after, origin)
      && ((other, owner) != (origin.importId, origin.merchant) ==>
            EntriesOf(after, other, owner) == EntriesOf(entries, other, owner))
    decreases |raws|
  {
    if raws == [] {
      NoEntriesOf(entries, origin.importId, origin.merchant);
    } else {
      var n := |raws| - 1;
      ImportOwnsItsEntries(entries, origin, raws[..n], other, owner);
      var before := Imported(entries, origin, raws[..n]);
      RowIsOwned(entries, before, origin, raws[n]);
      if Normalize(raws[n]).Some? {
        EntriesOfAppend(before, Entry(origin, Normalize(raws[n]).value), other, owner);
      }
    }
  }

  /** Reconciling an import under a new id goes through one entry for each key of the file that was not stored yet. */
  lemma {:induction false} ImportOwnsNewKeys(entries: seq<Entry>, origin: Origin, raws: seq<RawRow>)
    requires KeysUnique(entries) && NoneFrom(entries, origin.importId)
    ensures |EntriesOf(Imported(entries, origin, raws), origin.importId, origin.merchant)|
         == |FileKeys(origin.merchant, raws) - KeySet(entries)|
  {
    var after := Imported(entries, origin, raws);
    ImportOwnsItsEntries(entries, origin, raws, origin.importId, origin.merchant);
    ImportAddsFileKeys(entries, origin, raws);
    SizeIsKeyCount(entries);
    SizeIsKeyCount(after);
    assert KeySet(after) == KeySet(entries) + (FileKeys(origin.merchant, raws) - KeySet(entries));
  }

  /**
   After a file has been imported again, even for another bank account, reconciling the second
   import finds nothing to do, although all its valid rows count as processed.
   */
  lemma {:induction false} ReimportLeavesNothingToReconcile(
      entries: seq<Entry>, first: Origin, again: Origin, raws: seq<RawRow>)
    requires KeysUnique(entries) && first.merchant == again.merchant && first.importId != again.importId
    requires NoneFrom(entries, first.importId) && NoneFrom(entries, again.importId)
    ensures EntriesOf(Imported(Imported(entries, first, raws), again, raws), again.importId, again.merchant) == []
  {
    ReimportAddsNothing(entries, first, again, raws);
    ImportOwnsItsEntries(entries, first, raws, again.importId, again.merchant);
    NoEntriesOf(entries, again.importId, again.merchant);
  }
}
