/** What every database transaction of the ledger keeps: each invoice is credited at most once. */
module Crediting {
  import opened Store
  import opened Ledger

  predicate CreditedFor(t: Transaction, invoice: nat) {
    t.credited && t.invoice == invoice
  }

  function CreditedCount(rows: seq<Transaction>, invoice: nat): nat {
    if rows == [] then 0 else
    var n := |rows| - 1;
    CreditedCount(rows[..n], invoice) + if CreditedFor(rows[n], invoice) then 1 else 0
  }

  predicate LogsFor(f: FeeLog, rows: seq<Transaction>, invoice: nat) {
    f.transaction < |rows| && rows[f.transaction].invoice == invoice
  }

  function LogCount(fees: seq<FeeLog>, rows: seq<Transaction>, invoice: nat): nat {
    if fees == [] then 0 else
    var n := |fees| - 1;
    LogCount(fees[..n], rows, invoice) + if LogsFor(fees[n], rows, invoice) then 1 else 0
  }

  function UtxoCount(rows: seq<Utxo>, invoice: nat): nat {
    if rows == [] then 0 else
    var n := |rows| - 1;
    UtxoCount(rows[..n], invoice) + if rows[n].invoice == invoice then 1 else 0
  }

  /** The invoice is credited exactly when it is PAID, and then exactly once in every table. */
  ghost predicate CreditedOnce(db: Db, invoice: nat)
    requires invoice < |db.invoices|
  {
    var n := if db.invoices[invoice].status == PAID then 1 else 0;
    && CreditedCount(db.transactions, invoice) == n
    && LogCount(db.fees, db.transactions, invoice) == n
    && UtxoCount(db.utxos, invoice) == n
  }

  ghost predicate KeysDiffer(rows: seq<Transaction>) {
    forall i, j :: 0 <= i < j < |rows| ==> rows[i].txid != rows[j].txid || rows[i].invoice != rows[j].invoice
  }

  ghost predicate OutpointsDiffer(rows: seq<Utxo>) {
    forall i, j :: 0 <= i < j < |rows| ==> rows[i].txid != rows[j].txid
  }

  ghost predicate ReferencesValid(db: Db) {
    && (forall i :: 0 <= i < |db.transactions| ==> db.transactions[i].invoice < |db.invoices|)
    && (forall i :: 0 <= i < |db.fees| ==> db.fees[i].transaction < |db.transactions|)
    && (forall i :: 0 <= i < |db.utxos| ==> db.utxos[i].invoice < |db.invoices|)
  }

  ghost predicate Confirmed(db: Db, required: int) {
    forall i :: 0 <= i < |db.transactions| ==>
      db.transactions[i].credited ==> db.transactions[i].confirmations >= required
  }

  ghost predicate LedgerValid(db: Db, required: int) {
    && ReferencesValid(db)
    && KeysDiffer(db.transactions)
    && OutpointsDiffer(db.utxos)
    && Confirmed(db, required)
    && forall i :: 0 <= i < |db.invoices| ==> CreditedOnce(db, i)
  }

  // ---------------------------------------------------------------------------
  // Lookups and counts
  // ---------------------------------------------------------------------------

  /** A lookup among distinct keys finds no duplicate, and misses exactly the absent keys. */
  lemma {:induction false} LookupAmongDistinct(keys: seq<rowKey>, key: rowKey)
    requires forall i, j :: 0 <= i < j < |keys| ==> keys[i] != keys[j]
    ensures !Find(keys, key).Many?
    ensures Find(keys, key).Missing? <==> key !in keys
  {
    if keys != [] {
      var n := |keys| - 1;
      LookupAmongDistinct(keys[..n], key);
      assert keys == keys[..n] + [keys[n]];
    }
  }

  lemma TransactionLookup(rows: seq<Transaction>, txid: string, invoice: nat)
    requires KeysDiffer(rows)
    ensures !Find(TransactionKeys(rows), (txid, invoice)).Many?
    ensures Find(TransactionKeys(rows), (txid, invoice)).Missing? <==>
              forall i :: 0 <= i < |rows| ==> rows[i].txid != txid || rows[i].invoice != invoice
  {
    var keys := TransactionKeys(rows);
    LookupAmongDistinct(keys, (txid, invoice));
    assert forall i :: 0 <= i < |rows| ==> keys[i] == (rows[i].txid, rows[i].invoice);
  }

  lemma {:induction false} NoUtxoLookup(rows: seq<Utxo>, txid: string, invoice: nat)
    requires UtxoCount(rows, invoice) == 0
    ensures Find(UtxoKeys(rows), (txid, invoice)).Missing?
  {
    if rows != [] {
      var n := |rows| - 1;
      NoUtxoLookup(rows[..n], txid, invoice);
      assert UtxoKeys(rows)[..n] == UtxoKeys(rows[..n]);
    }
  }

  lemma {:induction false} CreditedCountUpdate(rows: seq<Transaction>, t: nat, tx: Transaction, invoice: nat)
    requires t < |rows|
    ensures CreditedCount(rows[t := tx], invoice) + (if CreditedFor(rows[t], invoice) then 1 else 0)
            == CreditedCount(rows, invoice) + (if CreditedFor(tx, invoice) then 1 else 0)
    decreases |rows|
  {
    var n := |rows| - 1;
    if t < n {
      CreditedCountUpdate(rows[..n], t, tx, invoice);
      assert rows[t := tx][..n] == rows[..n][t := tx];
    } else {
      assert rows[t := tx][..n] == rows[..n];
    }
  }

  lemma {:induction false} CreditedIsCounted(rows: seq<Transaction>, t: nat, invoice: nat)
    requires t < |rows| && CreditedFor(rows[t], invoice)
    ensures CreditedCount(rows, invoice) > 0
    decreases |rows|
  {
    if t < |rows| - 1 {
      CreditedIsCounted(rows[..|rows| - 1], t, invoice);
    }
  }

  /** Fee logs count the same while their rows keep their invoices. */
  lemma {:induction false} LogCountKept(fees: seq<FeeLog>, before: seq<Transaction>, after: seq<Transaction>,
                                          invoice: nat)
    requires |before| <= |after| && forall i :: 0 <= i < |before| ==> after[i].invoice == before[i].invoice
    requires forall i :: 0 <= i < |fees| ==> fees[i].transaction < |before|
    ensures LogCount(fees, after, invoice) == LogCount(fees, before, invoice)
  {
    if fees != [] {
      LogCountKept(fees[..|fees| - 1], before, after, invoice);
    }
  }

  // ---------------------------------------------------------------------------
  // The upsert
  // ---------------------------------------------------------------------------

  /** With distinct keys the upsert never fails; it touches one row, which is the job's, keeps
      what was received and whether it was credited, and credits nothing. */
  lemma UpsertKeeps(db: Db, job: Job, confirmations: int)
    requires ReferencesValid(db) && KeysDiffer(db.transactions) && job.invoice < |db.invoices|
    ensures Upserted(db.transactions, job, confirmations).Some?
    ensures
      var (rows, t) := Upserted(db.transactions, job, confirmations).value;
      && |db.transactions| <= |rows| && t < |rows|
      && rows[t].txid == job.txid && rows[t].invoice == job.invoice && rows[t].confirmations == confirmations
      && (forall i :: 0 <= i < |rows| && i != t ==> i < |db.transactions| && rows[i] == db.transactions[i])
      && (rows[t].credited ==> t < |db.transactions| && db.transactions[t].credited)
      && (t < |db.transactions| ==> rows[t].invoice == db.transactions[t].invoice)
      && KeysDiffer(rows) && ReferencesValid(db.(transactions := rows))
  {
    TransactionLookup(db.transactions, job.txid, job.invoice);
  }

  lemma UpsertCounts(db: Db, job: Job, confirmations: int, invoice: nat)
    requires ReferencesValid(db) && KeysDiffer(db.transactions) && job.invoice < |db.invoices|
    ensures Upserted(db.transactions, job, confirmations).Some?
    ensures
      var (rows, t) := Upserted(db.transactions, job, confirmations).value;
      && CreditedCount(rows, invoice) == CreditedCount(db.transactions, invoice)
      && LogCount(db.fees, rows, invoice) == LogCount(db.fees, db.transactions, invoice)
  {
    UpsertKeeps(db, job, confirmations);
    var (rows, t) := Upserted(db.transactions, job, confirmations).value;
    LogCountKept(db.fees, db.transactions, rows, invoice);
    if t < |db.transactions| {
      CreditedCountUpdate(db.transactions, t, rows[t], invoice);
    } else {
      assert rows[..|rows| - 1] == db.transactions;
    }
  }

  // ---------------------------------------------------------------------------
  // The credit
  // ---------------------------------------------------------------------------

  /** Crediting a transaction of an unpaid invoice counts it once in every table. */
  lemma CreditCounts(db: Db, t: nat, commission: nat, paid: Db, invoice: nat)
    requires ReferencesValid(db) && t < |db.transactions| && invoice < |db.invoices|
    requires CreditResult(db, t, commission) == Credited(paid)
    requires Find(UtxoKeys(db.utxos), (db.transactions[t].txid, db.transactions[t].invoice)).Missing?
    ensures
      var d := if invoice == db.transactions[t].invoice then 1 else 0;
      && CreditedCount(paid.transactions, invoice) == CreditedCount(db.transactions, invoice) + d
      && LogCount(paid.fees, paid.transactions, invoice) == LogCount(db.fees, db.transactions, invoice) + d
      && UtxoCount(paid.utxos, invoice) == UtxoCount(db.utxos, invoice) + d
  {
    CreditedCountUpdate(db.transactions, t, paid.transactions[t], invoice);
    assert paid.fees[..|paid.fees| - 1] == db.fees;
    LogCountKept(db.fees, db.transactions, paid.transactions, invoice);
    assert paid.utxos[..|paid.utxos| - 1] == db.utxos;
  }

  /** Every database transaction of the ledger keeps the invariant, never meets a credited row,
      and fails exactly when it would credit an outpoint that is registered already. */
  lemma ProcessingKeepsValid(db: Db, job: Job, confirmations: int, required: int, commission: nat)
    requires LedgerValid(db, required)
    ensures LedgerValid(Processed(db, job, confirmations, required, commission).0, required)
    ensures Processed(db, job, confirmations, required, commission).1 != WasCredited
    ensures Processed(db, job, confirmations, required, commission).1 == DatabaseError <==>
              && job.invoice < |db.invoices| && db.invoices[job.invoice].status != PAID
              && confirmations >= required && HasOutpoint(db.utxos, job.txid)
  {
    if job.invoice < |db.invoices| && db.invoices[job.invoice].status != PAID {
      UpsertKeeps(db, job, confirmations);
      var (rows, t) := Upserted(db.transactions, job, confirmations).value;
      NotYetCredited(db, job, rows, t);
      if confirmations < required {
        WaitingKeepsValid(db, job, confirmations, required);
      } else {
        NoUtxoLookup(db.utxos, job.txid, job.invoice);
        if !HasOutpoint(db.utxos, job.txid) {
          PayingKeepsValid(db, job, confirmations, required, commission);
        }
      }
    }
  }

  /** The row of an unpaid invoice has not been credited. */
  lemma NotYetCredited(db: Db, job: Job, rows: seq<Transaction>, t: nat)
    requires job.invoice < |db.invoices| && CreditedOnce(db, job.invoice) && db.invoices[job.invoice].status != PAID
    requires t < |rows| && rows[t].invoice == job.invoice
    requires rows[t].credited ==> t < |db.transactions| && db.transactions[t].credited
    requires t < |db.transactions| ==> rows[t].invoice == db.transactions[t].invoice
    ensures !rows[t].credited
  {
    if rows[t].credited {
      CreditedIsCounted(db.transactions, t, job.invoice);
    }
  }

  lemma WaitingKeepsValid(db: Db, job: Job, confirmations: int, required: int)
    requires LedgerValid(db, required) && job.invoice < |db.invoices| && db.invoices[job.invoice].status != PAID
    requires confirmations < required
    ensures LedgerValid(Processed(db, job, confirmations, required, 0).0, required)
  {
    UpsertKeeps(db, job, confirmations);
    var (rows, t) := Upserted(db.transactions, job, confirmations).value;
    NotYetCredited(db, job, rows, t);
    var after := Processed(db, job, confirmations, required, 0).0;
    forall i | 0 <= i < |after.invoices| ensures CreditedOnce(after, i) {
      assert CreditedOnce(db, i);
      UpsertCounts(db, job, confirmations, i);
    }
  }

  /** A credit keeps references, keys, outpoints and confirmations in order. */
  lemma CreditKeepsShape(db: Db, t: nat, commission: nat, required: int)
    requires ReferencesValid(db) && KeysDiffer(db.transactions) && OutpointsDiffer(db.utxos) && Confirmed(db, required)
    requires t < |db.transactions| && db.transactions[t].confirmations >= required
    ensures CreditResult(db, t, commission).Credited? ==>
              var paid := CreditResult(db, t, commission).db;
              && ReferencesValid(paid) && KeysDiffer(paid.transactions)
              && OutpointsDiffer(paid.utxos) && Confirmed(paid, required)
  {
  }

  lemma PayingKeepsValid(db: Db, job: Job, confirmations: int, required: int, commission: nat)
    requires LedgerValid(db, required) && job.invoice < |db.invoices| && db.invoices[job.invoice].status != PAID
    requires confirmations >= required && !HasOutpoint(db.utxos, job.txid)
    ensures Processed(db, job, confirmations, required, commission).1 == NowPaid
    ensures LedgerValid(Processed(db, job, confirmations, required, commission).0, required)
  {
    UpsertKeeps(db, job, confirmations);
    var (rows, t) := Upserted(db.transactions, job, confirmations).value;
    NotYetCredited(db, job, rows, t);
    NoUtxoLookup(db.utxos, job.txid, job.invoice);
    var after := db.(transactions := rows);
    assert CreditResult(after, t, commission).Credited?;
    CreditKeepsShape(after, t, commission, required);
    forall i | 0 <= i < |db.invoices| ensures CreditedOnce(CreditResult(after, t, commission).db, i) {
      assert CreditedOnce(db, i);
      UpsertCounts(db, job, confirmations, i);
      CreditCountsOnce(db, after, t, commission, i);
    }
    hide CreditResult;
    assert Processed(db, job, confirmations, required, commission) == (CreditResult(after, t, commission).db, NowPaid);
  }

  lemma CreditCountsOnce(db: Db, after: Db, t: nat, commission: nat, i: nat)
    requires after == db.(transactions := after.transactions) && i < |db.invoices| && CreditedOnce(db, i)
    requires ReferencesValid(after) && t < |after.transactions|
    requires CreditedCount(after.transactions, i) == CreditedCount(db.transactions, i)
    requires LogCount(db.fees, after.transactions, i) == LogCount(db.fees, db.transactions, i)
    requires db.invoices[after.transactions[t].invoice].status != PAID
    requires Find(UtxoKeys(db.utxos), (after.transactions[t].txid, after.transactions[t].invoice)).Missing?
    requires CreditResult(after, t, commission).Credited?
    ensures i < |CreditResult(after, t, commission).db.invoices|
    ensures CreditedOnce(CreditResult(after, t, commission).db, i)
  {
    CreditCounts(after, t, commission, CreditResult(after, t, commission).db, i);
  }

  /** Exactly when a job ends in which way. */
  lemma OutcomeWhen(db: Db, job: Job, confirmations: int, required: int, commission: nat)
    requires LedgerValid(db, required)
    ensures
      var outcome := Processed(db, job, confirmations, required, commission).1;
      var open := job.invoice < |db.invoices| && db.invoices[job.invoice].status != PAID;
      && (outcome == NoInvoice <==> job.invoice >= |db.invoices|)
      && (outcome == AlreadyPaid <==> job.invoice < |db.invoices| && !open)
      && (outcome == Waiting <==> open && confirmations < required)
      && (outcome == NowPaid <==> open && confirmations >= required && !HasOutpoint(db.utxos, job.txid))
  {
    ProcessingKeepsValid(db, job, confirmations, required, commission);
    if job.invoice < |db.invoices| && db.invoices[job.invoice].status != PAID {
      UpsertKeeps(db, job, confirmations);
    }
  }

  /** PAID is never left, and the rows of a PAID invoice are never touched again. */
  lemma PaidIsFinal(db: Db, job: Job, confirmations: int, required: int, commission: nat, i: nat)
    requires LedgerValid(db, required) && i < |db.invoices| && db.invoices[i].status == PAID
    ensures
      var after := Processed(db, job, confirmations, required, commission).0;
      && i < |after.invoices| && after.invoices[i] == db.invoices[i]
      && |db.transactions| <= |after.transactions|
      && (forall k :: 0 <= k < |db.transactions| && db.transactions[k].invoice == i ==>
            after.transactions[k] == db.transactions[k])
  {
    if job.invoice < |db.invoices| && db.invoices[job.invoice].status != PAID {
      UpsertKeeps(db, job, confirmations);
    }
  }

  /** One transaction pays one invoice: once a txid has credited an invoice, a job with the same txid
      for another unpaid invoice is rejected and changes nothing. */
  lemma SecondInvoiceRejected(db: Db, first: Job, second: Job, n: int, m: int, required: int, commission: nat)
    requires LedgerValid(db, required) && Processed(db, first, n, required, commission).1 == NowPaid
    requires second.txid == first.txid && second.invoice != first.invoice
    requires second.invoice < |db.invoices| && db.invoices[second.invoice].status != PAID && m >= required
    ensures
      var after := Processed(db, first, n, required, commission).0;
      && after.invoices[second.invoice] == db.invoices[second.invoice]
      && Processed(after, second, m, required, commission) == (after, DatabaseError)
  {
    var after := Processed(db, first, n, required, commission).0;
    ProcessingKeepsValid(db, first, n, required, commission);
    UpsertKeeps(db, first, n);
    NoUtxoLookup(db.utxos, first.txid, first.invoice) by { assert CreditedOnce(db, first.invoice); }
    assert after.utxos[|db.utxos|].txid == first.txid;
    ProcessingKeepsValid(after, second, m, required, commission);
    UpsertKeeps(after, second, m);
  }
}
