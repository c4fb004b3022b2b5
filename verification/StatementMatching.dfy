/**
 Reconciliation in terms of the transactions themselves: what a match has in common with its
 entry, and which transactions do not matter.
 */
module StatementMatching {
  import opened Common
  import opened BankStatement

  /** The amount that the entry is matched on, in whichever column it stands; zero means none. */
  function Amount(row: Row): int {
    if row.credit != 0 then row.credit else row.debit
  }

  predicate SharesReference(t: Txn, reference: string) {
    t.internalReference == Some(reference) || t.externalReference == Some(reference) || t.providerId == reference
  }

  predicate WithinSevenDays(t: Txn, date: int) {
    t.initiatedAt.Some? && date - 604800 <= t.initiatedAt.value <= date + 604800
  }

  /**
   Merchant and currency agree; if the entry has a reference, one of the transaction's three is
   that; otherwise, if it has an amount, that agrees and the transaction began within seven days.
   */
  predicate Fits(e: Entry, t: Txn) {
    && t.merchant == e.origin.merchant && t.currency == e.row.currency
    && (e.row.reference.Some? && e.row.reference.value != "" ==> SharesReference(t, e.row.reference.value))
    && (e.row.reference == None || e.row.reference == Some("") ==>
          Amount(e.row) != 0 ==> t.amount == Amount(e.row) && WithinSevenDays(t, e.row.entryDate))
  }

  /** The candidate query selects exactly the transactions that fit. */
  lemma MatchesIff(e: Entry, t: Txn)
    ensures Matches(e, t) <==> Fits(e, t)
  {
    assert WEEK == 604800;
  }

  /**
   A recorded outcome names one of the transactions that fit its entry, with confidence 9500 if it
   was found by reference and 7500 otherwise, and it names none only if none fits.
   */
  lemma {:induction false} ReconciledExactly(r: Recon, e: Entry, importId: string, txns: seq<Txn>)
    requires SoundRecon(r, e, importId, txns)
    ensures r.entry == e && r.merchant == e.origin.merchant && r.importId == importId
    ensures r.txn.Some? ==> exists t :: t in txns && t.id == r.txn.value && Fits(e, t)
    ensures r.txn.Some? ==> r.confidence == if e.row.reference in {None, Some("")} then 7500 else 9500
    ensures r.txn.None? ==> r.confidence == 0 && forall t :: t in txns ==> !Fits(e, t)
  {
    if r.txn.Some? {
      var i :| 0 <= i < |txns| && Matches(e, txns[i]) && txns[i].id == r.txn.value;
      MatchesIff(e, txns[i]);
      assert txns[i] in txns;
    } else {
      forall t | t in txns ensures !Fits(e, t) {
        MatchesIff(e, t);
        var i :| 0 <= i < |txns| && txns[i] == t;
      }
    }
  }

  // ----- other merchants' transactions -----

  /** The transactions of one merchant in one of the currencies, in order. */
  function Own(txns: seq<Txn>, merchant: string, currencies: set<string>): seq<Txn> {
    if txns == [] then []
    else
      var last := txns[|txns| - 1];
      var init := Own(txns[..|txns| - 1], merchant, currencies);
      if last.merchant == merchant && last.currency in currencies then init + [last] else init
  }

  lemma {:induction false} OwnIff(txns: seq<Txn>, merchant: string, currencies: set<string>, t: Txn)
    ensures t in Own(txns, merchant, currencies) <==> t in txns && t.merchant == merchant && t.currency in currencies
  {
    if txns == [] {
    } else {
      OwnIff(txns[..|txns| - 1], merchant, currencies, t);
    }
  }

  lemma {:induction false} HasMatchIn(e: Entry, txns: seq<Txn>)
    ensures HasMatch(e, txns) <==> exists t :: t in txns && Matches(e, t)
  {
    if t :| t in txns && Matches(e, t) {
      var i :| 0 <= i < |txns| && txns[i] == t;
    }
  }

  lemma {:induction false} OnlyOwnMatter(e: Entry, txns: seq<Txn>, currencies: set<string>)
    requires e.row.currency in currencies
    ensures HasMatch(e, txns) <==> HasMatch(e, Own(txns, e.origin.merchant, currencies))
  {
    HasMatchIn(e, txns);
    HasMatchIn(e, Own(txns, e.origin.merchant, currencies));
    forall t | Matches(e, t) ensures t in txns <==> t in Own(txns, e.origin.merchant, currencies) {
      MatchesIff(e, t);
      OwnIff(txns, e.origin.merchant, currencies, t);
    }
    forall t ensures t in Own(txns, e.origin.merchant, currencies) ==> t in txns {
      OwnIff(txns, e.origin.merchant, currencies, t);
    }
  }

  /** Transactions of other merchants and in other currencies change no tally. */
  lemma {:induction false} TalliesIgnoreOthers(
      entries: seq<Entry>, merchant: string, txns: seq<Txn>, currencies: set<string>)
    requires forall i :: 0 <= i < |entries| ==>
      entries[i].origin.merchant == merchant && entries[i].row.currency in currencies
    ensures CountMatched(entries, txns) == CountMatched(entries, Own(txns, merchant, currencies))
  {
    if entries == [] {
    } else {
      var n := |entries| - 1;
      TalliesIgnoreOthers(entries[..n], merchant, txns, currencies);
      OnlyOwnMatter(entries[n], txns, currencies);
    }
  }
}
