/** The database transactions of one payout: freeze the balance and choose coins, record the signed
    transaction, settle after the broadcast, or mark the payout FAILED. */
module Payouts {
  import opened ByteStrings
  import opened Store
  import opened CoinSelection
  import opened PayoutBuilder

  /** What the selector's query returns: the unspent coins of an account, smallest first. */
  ghost predicate QueryResult(db: Db, account: Account, coins: seq<Coin>) {
    && Ascending(coins)
    && Distinct(coins)
    && (forall i :: 0 <= i < |coins| ==> Offered(db, account, coins[i]))
    && (forall u :: 0 <= u < |db.utxos| && Offered(db, account, Coin(u, db.utxos[u].amount))
          ==> Coin(u, db.utxos[u].amount) in coins)
  }

  predicate Distinct(coins: seq<Coin>) {
    forall i, j :: 0 <= i < j < |coins| ==> coins[i].id != coins[j].id
  }

  predicate Offered(db: Db, account: Account, c: Coin) {
    && c.id < |db.utxos| && db.utxos[c.id].amount == c.amount && !db.utxos[c.id].isSpent
    && OwnedBy(db.utxos[c.id], Owners(db.invoices), account)
  }

  /** `_prepare`: the new database and the selected coins, or `None` for its errors. */
  function Prepared(db: Db, p: nat, coins: seq<Coin>, rate: int): Option<(Db, seq<Coin>)> {
    if p >= |db.payouts| || !db.payouts[p].status.PENDING? then None else
    var y := db.payouts[p];
    if y.account !in db.balances || db.balances[y.account].available < y.amount then None else
    var b := db.balances[y.account];
    if coins == [] then None else
    match Cover(coins, y.amount + RoughFee(rate))
    case None => None
    case Some(selected) =>
      Some((db.(balances := db.balances[y.account := Balance(b.available - y.amount, b.locked + y.amount)]), selected))
  }

  function Persisted(db: Db, p: nat, fee: int, out: int): Option<Db> {
    if p >= |db.payouts| then None else
    Some(db.(payouts := db.payouts[p := db.payouts[p].(status := PROCESSING, minerFee := fee, net := out)]))
  }

  function MarkedSpent(utxos: seq<Utxo>, selected: seq<Coin>, p: nat): Option<seq<Utxo>> {
    if selected == [] then Some(utxos) else
    var n := |selected| - 1;
    match MarkedSpent(utxos, selected[..n], p)
    case None => None
    case Some(rows) =>
      var u := selected[n].id;
      if u >= |rows| then None else Some(rows[u := rows[u].(isSpent := true, spentBy := Option.Some(p))])
  }

  /** `_finalise`: it looks at no status. */
  function Finalised(db: Db, p: nat, selected: seq<Coin>, fee: int, out: int): Option<Db> {
    if p >= |db.payouts| then None else
    var y := db.payouts[p];
    match MarkedSpent(db.utxos, selected, p)
    case None => None
    case Some(rows) =>
      if y.account !in db.balances then None else
      var b := db.balances[y.account];
      Some(db.(utxos := rows,
               balances := db.balances[y.account := b.(locked := b.locked - y.amount)],
               payouts := db.payouts[p := y.(status := SENT, minerFee := fee, net := out)]))
  }

  function Min(a: int, b: int): int {
    if a < b then a else b
  }

  /** `_mark_failed`: the refund is whatever is locked, up to the requested amount. */
  function MarkedFailed(db: Db, p: nat): Db {
    if p >= |db.payouts| then db else
    var y := db.payouts[p];
    var after := db.(payouts := db.payouts[p := y.(status := FAILED)]);
    if (y.status.PENDING? || y.status.PROCESSING?) && y.amount != 0 && y.account in db.balances then
      var b := db.balances[y.account];
      var refund := Min(b.locked, y.amount);
      after.(balances := db.balances[y.account := Balance(b.available + refund, b.locked - refund)])
    else
      after
  }

  class PayoutProcessor {
    const session: Database

    constructor (session: Database)
      ensures this.session == session
    {
      this.session := session;
    }

    method Prepare(p: nat, coins: seq<Coin>, rate: int) returns (selected: Option<seq<Coin>>)
      modifies session
      ensures match Prepared(old(session.View()), p, coins, rate)
              case None => selected.None? && session.View() == old(session.View())
              case Some((db, picked)) => selected == Some(picked) && session.View() == db
    {
      if p >= |session.payouts| {
        return None;
      }
      var payout := session.payouts[p];
      if !payout.status.PENDING? {
        return None;
      }
      if payout.account !in session.balances {
        return None;
      }
      var balance := session.balances[payout.account];
      if balance.available < payout.amount {
        return None;
      }
      selected := Select(coins, payout.amount, RoughFee(rate));
      if selected.None? {
        return None;
      }
      balance := balance.(available := balance.available - payout.amount);
      balance := balance.(locked := balance.locked + payout.amount);
      session.balances := session.balances[payout.account := balance];
    }

    method Record(p: nat, fee: int, out: int) returns (ok: bool)
      modifies session
      ensures match Persisted(old(session.View()), p, fee, out)
              case None => !ok && session.View() == old(session.View())
              case Some(db) => ok && session.View() == db
    {
      if p >= |session.payouts| {
        return false;
      }
      var payout := session.payouts[p];
      payout := payout.(status := PROCESSING);
      payout := payout.(minerFee := fee);
      payout := payout.(net := out);
      session.payouts := session.payouts[p := payout];
      return true;
    }

    method Finalise(p: nat, selected: seq<Coin>, fee: int, out: int) returns (ok: bool)
      modifies session
      ensures match Finalised(old(session.View()), p, selected, fee, out)
              case None => !ok && session.View() == old(session.View())
              case Some(db) => ok && session.View() == db
    {
      if p >= |session.payouts| {
        return false;
      }
      var saved := session.View();
      var payout := session.payouts[p];
      for i := 0 to |selected|
        invariant MarkedSpent(saved.utxos, selected[..i], p) == Some(session.utxos)
        invariant session.View() == saved.(utxos := session.utxos)
      {
        var u := selected[i].id;
        assert selected[..i + 1][..i] == selected[..i];
        if u >= |session.utxos| {
          NotMarked(saved.utxos, selected, i + 1, p);
          session.Restore(saved);
          return false;
        }
        session.utxos := session.utxos[u := session.utxos[u].(isSpent := true, spentBy := Option.Some(p))];
      }
      assert selected[..|selected|] == selected;
      if payout.account !in session.balances {
        session.Restore(saved);
        return false;
      }
      var balance := session.balances[payout.account];
      balance := balance.(locked := balance.locked - payout.amount);
      session.balances := session.balances[payout.account := balance];
      payout := payout.(status := SENT);
      payout := payout.(minerFee := fee);
      payout := payout.(net := out);
      session.payouts := session.payouts[p := payout];
      return true;
    }

    method MarkFailed(p: nat)
      modifies session
      ensures session.View() == MarkedFailed(old(session.View()), p)
    {
      if p >= |session.payouts| {
        return;
      }
      var payout := session.payouts[p];
      var wasLocked := payout.status.PENDING? || payout.status.PROCESSING?;
      session.payouts := session.payouts[p := payout.(status := FAILED)];
      if wasLocked && payout.amount != 0 {
        if payout.account in session.balances {
          var balance := session.balances[payout.account];
          var refund := if balance.locked < payout.amount then balance.locked else payout.amount;
          balance := balance.(locked := balance.locked - refund);
          balance := balance.(available := balance.available + refund);
          session.balances := session.balances[payout.account := balance];
        }
      }
    }
  }

  /** An error at one coin is an error of the whole loop. */
  lemma {:induction false} NotMarked(utxos: seq<Utxo>, selected: seq<Coin>, k: nat, p: nat)
    requires k <= |selected| && MarkedSpent(utxos, selected[..k], p).None?
    ensures MarkedSpent(utxos, selected, p).None?
    decreases |selected| - k
  {
    if k == |selected| {
      assert selected[..k] == selected;
    } else {
      assert selected[..k + 1][..k] == selected[..k];
      NotMarked(utxos, selected, k + 1, p);
    }
  }
}
