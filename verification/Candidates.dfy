/** What the selector's query offers: every unspent coin of the account once, so that a payout is prepared
    exactly when balance and coins suffice. */
module Candidates {
  import opened Store
  import opened CoinSelection
  import opened PayoutBuilder
  import opened Payouts

  /** The coins whose rows come before the `n`-th. */
  function TotalBelow(coins: seq<Coin>, n: nat): nat {
    if coins == [] then 0 else
    var c := coins[|coins| - 1];
    TotalBelow(coins[..|coins| - 1], n) + if c.id < n then c.amount else 0
  }

  /** What the coins of one row are worth together. */
  function TotalAt(coins: seq<Coin>, n: nat): nat {
    if coins == [] then 0 else
    var c := coins[|coins| - 1];
    TotalAt(coins[..|coins| - 1], n) + if c.id == n then c.amount else 0
  }

  lemma {:induction false} BelowNext(coins: seq<Coin>, n: nat)
    ensures TotalBelow(coins, n + 1) == TotalBelow(coins, n) + TotalAt(coins, n)
  {
    if coins != [] {
      BelowNext(coins[..|coins| - 1], n);
    }
  }

  lemma {:induction false} BelowNone(coins: seq<Coin>)
    ensures TotalBelow(coins, 0) == 0
  {
    if coins != [] {
      BelowNone(coins[..|coins| - 1]);
    }
  }

  lemma {:induction false} BelowAll(coins: seq<Coin>, n: nat)
    requires forall i :: 0 <= i < |coins| ==> coins[i].id < n
    ensures TotalBelow(coins, n) == Total(coins)
  {
    if coins != [] {
      BelowAll(coins[..|coins| - 1], n);
    }
  }

  lemma {:induction false} NotOffered(coins: seq<Coin>, n: nat)
    requires forall i :: 0 <= i < |coins| ==> coins[i].id != n
    ensures TotalAt(coins, n) == 0
  {
    if coins != [] {
      NotOffered(coins[..|coins| - 1], n);
    }
  }

  lemma {:induction false} OfferedOnce(coins: seq<Coin>, i: nat)
    requires Distinct(coins) && i < |coins|
    ensures TotalAt(coins, coins[i].id) == coins[i].amount
  {
    var n := |coins| - 1;
    if i < n {
      OfferedOnce(coins[..n], i);
    } else {
      NotOffered(coins[..n], coins[n].id);
    }
  }

  /** One row adds its amount if it is unspent and the account's. */
  lemma RowOffered(db: Db, a: Account, coins: seq<Coin>, u: nat)
    requires QueryResult(db, a, coins) && u < |db.utxos|
    ensures TotalAt(coins, u)
            == if !db.utxos[u].isSpent && OwnedBy(db.utxos[u], Owners(db.invoices), a) then db.utxos[u].amount else 0
  {
    if !db.utxos[u].isSpent && OwnedBy(db.utxos[u], Owners(db.invoices), a) {
      assert Offered(db, a, Coin(u, db.utxos[u].amount));
      var i :| 0 <= i < |coins| && coins[i] == Coin(u, db.utxos[u].amount);
      OfferedOnce(coins, i);
    } else {
      forall i | 0 <= i < |coins| ensures coins[i].id != u {
        assert Offered(db, a, coins[i]);
      }
      NotOffered(coins, u);
    }
  }

  lemma {:induction false} BelowIsUnspent(db: Db, a: Account, coins: seq<Coin>, n: nat)
    requires QueryResult(db, a, coins) && n <= |db.utxos|
    ensures TotalBelow(coins, n) == Unspent(db.utxos[..n], Owners(db.invoices), a)
  {
    if n == 0 {
      BelowNone(coins);
    } else {
      BelowIsUnspent(db, a, coins, n - 1);
      BelowNext(coins, n - 1);
      RowOffered(db, a, coins, n - 1);
      hide QueryResult;
      assert db.utxos[..n][..n - 1] == db.utxos[..n - 1];
    }
  }

  /** The candidates are worth what is unspent on the account. */
  lemma CandidatesAreUnspent(db: Db, a: Account, coins: seq<Coin>)
    requires QueryResult(db, a, coins)
    ensures Total(coins) == Unspent(db.utxos, Owners(db.invoices), a)
  {
    forall i | 0 <= i < |coins| ensures coins[i].id < |db.utxos| {
      assert Offered(db, a, coins[i]);
    }
    BelowAll(coins, |db.utxos|);
    BelowIsUnspent(db, a, coins, |db.utxos|);
    assert db.utxos[..|db.utxos|] == db.utxos;
  }

  /** Exactly when a pending payout is prepared: its balance has the amount available, and the unspent coins
      of its account cover the amount and the fee estimate. */
  lemma PreparedWhenFunded(db: Db, p: nat, coins: seq<Coin>, rate: nat)
    requires p < |db.payouts| && db.payouts[p].status.PENDING? && db.payouts[p].amount > 0
    requires QueryResult(db, db.payouts[p].account, coins)
    ensures
      var y := db.payouts[p];
      Prepared(db, p, coins, rate).Some? <==>
        && y.account in db.balances && db.balances[y.account].available >= y.amount
        && Unspent(db.utxos, Owners(db.invoices), y.account) >= y.amount + RoughFee(rate)
  {
    CandidatesAreUnspent(db, db.payouts[p].account, coins);
    hide QueryResult;
  }

  /** The selected coins are the smallest there are: every choice among the candidates that covers the need has
      a coin as large as the largest selected one. */
  lemma PreparedIsMinimax(db: Db, p: nat, coins: seq<Coin>, rate: nat, choice: seq<bool>)
    requires p < |db.payouts| && db.payouts[p].amount > 0 && Prepared(db, p, coins, rate).Some?
    requires QueryResult(db, db.payouts[p].account, coins)
    requires |choice| == |coins| && Chosen(coins, choice) >= db.payouts[p].amount + RoughFee(rate)
    ensures
      var selected := Prepared(db, p, coins, rate).value.1;
      exists i :: 0 <= i < |coins| && choice[i]
                  && forall j :: 0 <= j < |selected| ==> selected[j].amount <= coins[i].amount
  {
    var needed := db.payouts[p].amount + RoughFee(rate);
    var selected := Prepared(db, p, coins, rate).value.1;
    assert coins[..0] == [];
    CoverIsShortest(coins, needed, 0);
    assert selected != [];
    SelectionMinimax(coins, needed, selected, choice);
  }
}
