/** The ledger's database work for one job: upsert of the transaction row, the status machine of
    the invoice, and the credit, all inside one database transaction. */
module Ledger {
  import opened ByteStrings
  import opened Store

  /** The JSON payload of a job. */
  datatype Job = Job(txid: string, invoice: nat, address: string, amount: nat, coin: string, merchant: nat,
                     confirmations: int, retryCount: nat)

  /** `scalar_one_or_none`: no row, its row, or the error `MultipleResultsFound`. */
  datatype Lookup = Missing | One(row: nat) | Many

  type rowKey = (string, nat)

  function Find(keys: seq<rowKey>, key: rowKey): (l: Lookup)
    ensures l.One? ==> l.row < |keys| && keys[l.row] == key
  {
    if keys == [] then Missing else
    var n := |keys| - 1;
    var l := Find(keys[..n], key);
    if keys[n] == key then (if l.Missing? then One(n) else Many) else l
  }

  function TransactionKeys(rows: seq<Transaction>): (keys: seq<rowKey>)
    ensures |keys| == |rows|
  {
    seq(|rows|, i requires 0 <= i < |rows| => (rows[i].txid, rows[i].invoice))
  }

  function UtxoKeys(rows: seq<Utxo>): (keys: seq<rowKey>)
    ensures |keys| == |rows|
  {
    seq(|rows|, i requires 0 <= i < |rows| => (rows[i].txid, rows[i].invoice))
  }

  /** The unique constraint on `(txid, vout)` would be violated. */
  predicate HasOutpoint(rows: seq<Utxo>, txid: string) {
    exists i :: 0 <= i < |rows| && rows[i].txid == txid
  }

  /** Commission in hundredths of a percent, rounded down to a satoshi. */
  function Fee(gross: nat, commission: nat): nat {
    gross * commission / 10_000
  }

  // ---------------------------------------------------------------------------
  // What a credit and a job do to the database
  // ---------------------------------------------------------------------------

  datatype Credited = AlreadyCredited | Rejected | Credited(db: Db)

  /** The table after `_register_utxo`, unless a lookup or the unique constraint fails. */
  function RegisteredUtxos(rows: seq<Utxo>, t: Transaction): Option<seq<Utxo>> {
    match Find(UtxoKeys(rows), (t.txid, t.invoice))
    case Many => None
    case One(_) => Some(rows)
    case Missing =>
      if HasOutpoint(rows, t.txid) then None
      else Some(rows + [Utxo(t.invoice, t.txid, t.received, None, false)])
  }

  function CreditResult(db: Db, t: nat, commission: nat): Credited
    requires t < |db.transactions| && db.transactions[t].invoice < |db.invoices|
  {
    var tx := db.transactions[t];
    if tx.credited then AlreadyCredited else
    var account := db.invoices[tx.invoice].account;
    var fee := Fee(tx.received, commission);
    var b := BalanceOf(db.balances, account);
    match RegisteredUtxos(db.utxos, tx)
    case None => Rejected
    case Some(utxos) =>
      Credited(db.(
        balances := db.balances[account := b.(available := b.available + (tx.received - fee))],
        fees := db.fees + [FeeLog(t, account, tx.received, commission, fee, tx.received - fee)],
        utxos := utxos,
        transactions := db.transactions[t := tx.(credited := true)],
        invoices := db.invoices[tx.invoice := db.invoices[tx.invoice].(status := PAID)]))
  }

  /** How the processing of a job ended. */
  datatype Outcome = NoInvoice | AlreadyPaid | Waiting | NowPaid | WasCredited | DatabaseError

  /** The transaction row of the job, inserted if it is not there yet, with the new counts. */
  function Upserted(rows: seq<Transaction>, job: Job, confirmations: int): Option<(seq<Transaction>, nat)> {
    match Find(TransactionKeys(rows), (job.txid, job.invoice))
    case Many => None
    case One(t) =>
      Some((rows[t := rows[t].(confirmations := confirmations, retryCount := job.retryCount)], t))
    case Missing =>
      Some((rows + [Transaction(job.invoice, job.txid, job.amount, confirmations, false, job.retryCount)], |rows|))
  }

  function Processed(db: Db, job: Job, confirmations: int, required: int, commission: nat): (Db, Outcome) {
    if job.invoice >= |db.invoices| then (db, NoInvoice) else
    var invoice := db.invoices[job.invoice];
    if invoice.status == PAID then (db, AlreadyPaid) else
    match Upserted(db.transactions, job, confirmations)
    case None => (db, DatabaseError)
    case Some((rows, t)) =>
      var after := db.(transactions := rows);
      if confirmations < required then
        var status := if invoice.status == NEW then InvoiceStatus.PENDING else invoice.status;
        (after.(invoices := db.invoices[job.invoice := invoice.(status := status)]), Waiting)
      else
        match CreditResult(after, t, commission)
        case AlreadyCredited => (after, WasCredited)
        case Rejected => (db, DatabaseError)
        case Credited(paid) => (paid, NowPaid)
  }

  // ---------------------------------------------------------------------------
  // The same, step by step inside a session
  // ---------------------------------------------------------------------------

  datatype FeeResult = FeeResult(gross: nat, commission: nat, fee: nat, net: int)

  function CalculateFee(gross: nat, commission: nat): (r: FeeResult)
    ensures r.gross == gross && r.commission == commission && r.fee + r.net == gross
    ensures r.fee * 10_000 <= gross * commission < (r.fee + 1) * 10_000
    ensures commission <= 10_000 ==> 0 <= r.net <= gross
  {
    var fee := Fee(gross, commission);
    FeeAtMostGross(gross, commission);
    FeeResult(gross, commission, fee, gross - fee)
  }

  lemma FeeAtMostGross(gross: nat, commission: nat)
    ensures commission <= 10_000 ==> Fee(gross, commission) <= gross
  {
    if commission <= 10_000 {
      assert gross * commission <= gross * 10_000;
    }
  }

  class AccountingEngine {
    const session: Database

    constructor (session: Database)
      ensures this.session == session
    {
      this.session := session;
    }

    /** Returns false for `AlreadyCreditedError`, and `None` for an error that rolls back. */
    method Credit(t: nat, commission: nat) returns (ok: Option<bool>)
      requires t < |session.transactions| && session.transactions[t].invoice < |session.invoices|
      modifies session
      ensures match CreditResult(old(session.View()), t, commission)
              case AlreadyCredited => ok == Some(false) && session.View() == old(session.View())
              case Rejected => ok.None?
              case Credited(db) => ok == Some(true) && session.View() == db
    {
      var tx := session.transactions[t];
      if tx.credited {
        return Some(false);
      }
      var result := CalculateFee(tx.received, commission);
      var account := session.invoices[tx.invoice].account;
      GetOrCreateBalanceLocked(account);
      var balance := session.balances[account];
      session.balances := session.balances[account := balance.(available := balance.available + result.net)];
      session.fees := session.fees + [FeeLog(t, account, result.gross, result.commission, result.fee, result.net)];
      var registered := RegisterUtxo(tx);
      if !registered {
        return None;
      }
      session.transactions := session.transactions[t := tx.(credited := true)];
      session.invoices := session.invoices[tx.invoice := session.invoices[tx.invoice].(status := PAID)];
      return Some(true);
    }

    method GetOrCreateBalanceLocked(account: Account)
      modifies session
      ensures session.View() == old(session.View()).(
                balances := old(session.balances)[account := BalanceOf(old(session.balances), account)])
    {
      if account !in session.balances {
        session.balances := session.balances[account := Balance(0, 0)];
      }
      assert session.balances == old(session.balances)[account := BalanceOf(old(session.balances), account)];
    }

    method RegisterUtxo(tx: Transaction) returns (ok: bool)
      modifies session
      ensures match RegisteredUtxos(old(session.utxos), tx)
              case None => !ok && session.View() == old(session.View())
              case Some(rows) => ok && session.View() == old(session.View()).(utxos := rows)
    {
      var existing := Find(UtxoKeys(session.utxos), (tx.txid, tx.invoice));
      if existing.Many? {
        return false;
      }
      if existing.One? {
        return true;
      }
      if HasOutpoint(session.utxos, tx.txid) {
        return false;
      }
      session.utxos := session.utxos + [Utxo(tx.invoice, tx.txid, tx.received, None, false)];
      return true;
    }
  }

  class TxProcessor {
    const session: Database
    const engine: AccountingEngine
    const required: int

    ghost predicate Valid() {
      engine.session == session
    }

    constructor (session: Database, required: int)
      ensures Valid() && this.session == session && this.required == required
    {
      this.session := session;
      this.engine := new AccountingEngine(session);
      this.required := required;
    }

    method UpsertTransaction(job: Job, confirmations: int) returns (row: Option<nat>)
      modifies session
      ensures match Find(TransactionKeys(old(session.transactions)), (job.txid, job.invoice))
              case Many => row.None? && session.View() == old(session.View())
              case One(t) => row == Some(t) && session.View() == old(session.View())
              case Missing =>
                row == Some(|old(session.transactions)|)
                && session.View() == old(session.View()).(transactions := old(session.transactions)
                     + [Transaction(job.invoice, job.txid, job.amount, confirmations, false, job.retryCount)])
    {
      var found := Find(TransactionKeys(session.transactions), (job.txid, job.invoice));
      match found
      case Many => return None;
      case One(t) => return Some(t);
      case Missing =>
        var tx := Transaction(job.invoice, job.txid, job.amount, confirmations, false, job.retryCount);
        session.transactions := session.transactions + [tx];
        return Some(|session.transactions| - 1);
    }

    /** One database transaction: it commits what `Processed` says, or rolls back to the old state. */
    method ProcessInSession(job: Job, confirmations: int, commission: nat) returns (outcome: Outcome)
      requires Valid()
      modifies session
      ensures (session.View(), outcome)
              == Processed(old(session.View()), job, confirmations, required, commission)
    {
      ghost var start := session.View();
      var saved := session.View();
      if job.invoice >= |session.invoices| {
        return NoInvoice;
      }
      var invoice := session.invoices[job.invoice];
      if invoice.status == PAID {
        return AlreadyPaid;
      }
      var row := UpsertTransaction(job, confirmations);
      if row.None? {
        return DatabaseError;
      }
      var t := row.value;
      var tx := session.transactions[t];
      tx := tx.(confirmations := confirmations);
      tx := tx.(retryCount := job.retryCount);
      session.transactions := session.transactions[t := tx];
      if Find(TransactionKeys(start.transactions), (job.txid, job.invoice)).Missing? {
        assert session.transactions == start.transactions + [tx];
      }
      if confirmations < required {
        var status := if invoice.status == NEW then InvoiceStatus.PENDING else invoice.status;
        session.invoices := session.invoices[job.invoice := invoice.(status := status)];
        return Waiting;
      }
      var credited := engine.Credit(t, commission);
      match credited
      case None =>
        session.Restore(saved);
        return DatabaseError;
      case Some(done) =>
        return if done then NowPaid else WasCredited;
    }
  }
}
