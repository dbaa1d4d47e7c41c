/** The database rows of the ledger and the payout service, in satoshis, and the totals over them.
    Rows are never deleted, so a row's id is its position in its table. */
module Store {
  import opened ByteStrings

  datatype Account = Account(merchant: nat, coin: nat)

  datatype InvoiceStatus = NEW | PENDING | PARTIAL | PAID | EXPIRED
  datatype Invoice = Invoice(account: Account, status: InvoiceStatus)

  datatype Transaction = Transaction(invoice: nat, txid: string, received: nat, confirmations: int,
                                     credited: bool, retryCount: nat)

  datatype Balance = Balance(available: int, locked: int)

  datatype FeeLog = FeeLog(transaction: nat, account: Account, gross: int, commission: nat, fee: int, net: int)

  /** `vout` is always 0, so the outpoint of a row is its txid. */
  datatype Utxo = Utxo(invoice: nat, txid: string, amount: nat, spentBy: Option<nat>, isSpent: bool)

  datatype PayoutStatus = PENDING | PROCESSING | SENT | CONFIRMED | FAILED
  datatype Payout = Payout(account: Account, amount: nat, status: PayoutStatus, minerFee: int, net: int)

  datatype Db = Db(
    invoices: seq<Invoice>,
    transactions: seq<Transaction>,
    balances: map<Account, Balance>,
    fees: seq<FeeLog>,
    utxos: seq<Utxo>,
    payouts: seq<Payout>)

  const EMPTY: Db := Db([], [], map[], [], [], [])

  /** The tables as mutable state; a method that runs inside `session.begin()` changes them
      step by step, and `Restore` is what a rollback does. */
  class Database {
    var invoices: seq<Invoice>
    var transactions: seq<Transaction>
    var balances: map<Account, Balance>
    var fees: seq<FeeLog>
    var utxos: seq<Utxo>
    var payouts: seq<Payout>

    function View(): Db
      reads this
    {
      Db(invoices, transactions, balances, fees, utxos, payouts)
    }

    constructor ()
      ensures View() == EMPTY
    {
      invoices, transactions, balances, fees, utxos, payouts := [], [], map[], [], [], [];
    }

    method Restore(db: Db)
      modifies this
      ensures View() == db
    {
      invoices, transactions, balances := db.invoices, db.transactions, db.balances;
      fees, utxos, payouts := db.fees, db.utxos, db.payouts;
    }
  }

  // ---------------------------------------------------------------------------
  // Totals
  // ---------------------------------------------------------------------------

  /** The account each invoice belongs to. */
  function Owners(invoices: seq<Invoice>): (o: seq<Account>)
    ensures |o| == |invoices|
  {
    seq(|invoices|, i requires 0 <= i < |invoices| => invoices[i].account)
  }

  predicate OwnedBy(u: Utxo, owners: seq<Account>, a: Account) {
    u.invoice < |owners| && owners[u.invoice] == a
  }

  /** The unspent outputs of an account. */
  function Unspent(utxos: seq<Utxo>, owners: seq<Account>, a: Account): int {
    if utxos == [] then 0 else
    var u := utxos[|utxos| - 1];
    Unspent(utxos[..|utxos| - 1], owners, a) + if !u.isSpent && OwnedBy(u, owners, a) then u.amount else 0
  }

  function FeeTotal(fees: seq<FeeLog>, a: Account): int {
    if fees == [] then 0 else
    var f := fees[|fees| - 1];
    FeeTotal(fees[..|fees| - 1], a) + if f.account == a then f.fee else 0
  }

  /** The net amounts credited to an account. */
  function NetTotal(fees: seq<FeeLog>, a: Account): int {
    if fees == [] then 0 else
    var f := fees[|fees| - 1];
    NetTotal(fees[..|fees| - 1], a) + if f.account == a then f.net else 0
  }

  function BalanceOf(balances: map<Account, Balance>, a: Account): Balance {
    if a in balances then balances[a] else Balance(0, 0)
  }

  lemma {:induction false} UnspentUpdate(utxos: seq<Utxo>, owners: seq<Account>, a: Account, i: nat, u: Utxo)
    requires i < |utxos| && u.invoice == utxos[i].invoice && u.amount == utxos[i].amount
    requires !utxos[i].isSpent && u.isSpent
    ensures Unspent(utxos[i := u], owners, a)
            == Unspent(utxos, owners, a) - if OwnedBy(u, owners, a) then u.amount else 0
    decreases |utxos|
  {
    var n := |utxos| - 1;
    if i < n {
      UnspentUpdate(utxos[..n], owners, a, i, u);
      assert utxos[i := u][..n] == utxos[..n][i := u];
    } else {
      assert utxos[i := u][..n] == utxos[..n];
    }
  }

  lemma {:induction false} UnspentOwnersExtend(utxos: seq<Utxo>, owners: seq<Account>, b: Account, a: Account)
    requires forall i :: 0 <= i < |utxos| ==> utxos[i].invoice < |owners|
    ensures Unspent(utxos, owners + [b], a) == Unspent(utxos, owners, a)
  {
    if utxos != [] {
      UnspentOwnersExtend(utxos[..|utxos| - 1], owners, b, a);
    }
  }
}
