/** What holds in every reachable state of the interleaved credits and payouts: the double-entry
    identity, and that a coin is spent once. */
module MoneyInvariants {
  import opened ByteStrings
  import opened Store
  import opened Ledger
  import opened Crediting
  import opened CoinSelection
  import opened PayoutBuilder
  import opened Payouts
  import opened MoneyFlow

  // ---------------------------------------------------------------------------
  // The invariant
  // ---------------------------------------------------------------------------

  /** The coins belong to the account, each once, with the amounts of their rows. */
  ghost predicate SelectionOk(db: Db, account: Account, coins: seq<Coin>) {
    && Distinct(coins)
    && forall i :: 0 <= i < |coins| ==>
         && coins[i].id < |db.utxos| && db.utxos[coins[i].id].amount == coins[i].amount
         && OwnedBy(db.utxos[coins[i].id], Owners(db.invoices), account)
  }

  ghost predicate ConsumedBy(db: Db, chain: map<string, nat>, coins: seq<Coin>, p: nat) {
    forall i :: 0 <= i < |coins| ==> Outpoint(db, coins[i]) in chain && chain[Outpoint(db, coins[i])] == p
  }

  ghost predicate SpentFor(db: Db, coins: seq<Coin>, p: nat) {
    forall i :: 0 <= i < |coins| ==> coins[i].id < |db.utxos| && db.utxos[coins[i].id].spentBy == Some(p)
  }

  predicate HasSelection(y: Payout, r: Run) {
    r.stage.Frozen? || r.stage.Signed? || r.stage.Recorded? || r.stage.Accepted? || y.status.SENT?
  }

  predicate HasAmounts(y: Payout, r: Run) {
    r.stage.Signed? || r.stage.Recorded? || r.stage.Accepted? || y.status.SENT?
  }

  /** The status that each stage goes with, and when the amount may be frozen. */
  predicate StatusFits(y: Payout, r: Run) {
    match r.stage
    case Idle => y.status.PENDING? && !r.holds
    case Frozen => y.status.PENDING? && r.holds
    case Signed => y.status.PENDING? && r.holds
    case Recorded => y.status.PROCESSING? && r.holds
    case Accepted => y.status.PROCESSING? && r.holds
    case Failing => y.status.PENDING? || y.status.PROCESSING?
    case Abandoned => y.status.PENDING? || y.status.PROCESSING?
    case Finished => (y.status.SENT? || y.status.FAILED?) && !r.holds
  }

  ghost predicate RunOk(db: Db, chain: map<string, nat>, p: nat, y: Payout, r: Run) {
    && y.amount > 0
    && StatusFits(y, r)
    && (HasSelection(y, r) ==> SelectionOk(db, y.account, r.selected))
    && (HasAmounts(y, r) ==> Total(r.selected) == y.amount + r.fee + r.change && r.fee >= 0 && r.change >= 0)
    && (r.stage.Accepted? || y.status.SENT? ==> ConsumedBy(db, chain, r.selected, p))
    && (r.stage.Recorded? || r.stage.Accepted? || y.status.SENT? ==> y.minerFee == r.fee && y.net == y.amount)
    && (y.status.SENT? ==> SpentFor(db, r.selected, p))
    && (r.holds ==> y.account in db.balances)
  }

  ghost predicate RunsOk(s: State) {
    && |s.runs| == |s.db.payouts|
    && forall p :: 0 <= p < |s.runs| ==> RunOk(s.db, s.chain, p, s.db.payouts[p], s.runs[p])
  }

  /** A spent row names the SENT payout whose broadcast consumed it. */
  ghost predicate SpentRowOk(s: State, u: nat)
    requires u < |s.db.utxos|
  {
    var row := s.db.utxos[u];
    && (row.isSpent <==> row.spentBy.Some?)
    && (row.isSpent ==>
          && row.spentBy.value < |s.db.payouts| && s.db.payouts[row.spentBy.value].status.SENT?
          && row.txid in s.chain && s.chain[row.txid] == row.spentBy.value)
  }

  ghost predicate SpentRowsOk(s: State) {
    forall u :: 0 <= u < |s.db.utxos| ==> SpentRowOk(s, u)
  }

  /** Miner fees and change of the SENT payouts of an account. */
  function Costs(payouts: seq<Payout>, runs: seq<Run>, a: Account): int
    requires |payouts| == |runs|
  {
    if payouts == [] then 0 else
    var n := |payouts| - 1;
    Costs(payouts[..n], runs[..n], a)
    + if payouts[n].account == a && payouts[n].status.SENT? then payouts[n].minerFee + runs[n].change else 0
  }

  /** Assets equal liabilities: unspent coins and what SENT payouts paid to miners and change
      against the two balances and the collected fees. */
  ghost predicate Balanced(s: State, a: Account)
    requires |s.runs| == |s.db.payouts|
  {
    var b := BalanceOf(s.db.balances, a);
    Unspent(s.db.utxos, Owners(s.db.invoices), a) + Costs(s.db.payouts, s.runs, a)
    == b.available + b.locked + FeeTotal(s.db.fees, a)
  }

  ghost predicate Valid(s: State, c: Config) {
    && LedgerValid(s.db, c.required)
    && RunsOk(s)
    && SpentRowsOk(s)
    && forall a: Account :: Balanced(s, a)
  }

  // ---------------------------------------------------------------------------
  // Changes that leave coins and payouts alone
  // ---------------------------------------------------------------------------

  /** Rows keep their identity and spent rows stay as they are; the chain only grows. */
  ghost predicate Grows(s: State, t: State) {
    && |s.db.utxos| <= |t.db.utxos|
    && (forall u :: 0 <= u < |s.db.utxos| ==>
          && t.db.utxos[u].invoice == s.db.utxos[u].invoice && t.db.utxos[u].txid == s.db.utxos[u].txid
          && t.db.utxos[u].amount == s.db.utxos[u].amount
          && (s.db.utxos[u].isSpent ==> t.db.utxos[u] == s.db.utxos[u]))
    && Owners(s.db.invoices) <= Owners(t.db.invoices)
    && (forall k :: k in s.chain ==> k in t.chain && t.chain[k] == s.chain[k])
    && s.db.balances.Keys <= t.db.balances.Keys
  }

  lemma RunOkGrows(s: State, t: State, p: nat, y: Payout, r: Run)
    requires Grows(s, t) && SpentRowsOk(s) && RunOk(s.db, s.chain, p, y, r)
    ensures RunOk(t.db, t.chain, p, y, r)
  {
    if y.status.SENT? {
      forall i | 0 <= i < |r.selected| ensures t.db.utxos[r.selected[i].id].spentBy == Some(p) {
        assert SpentRowOk(s, r.selected[i].id);
      }
    }
  }

  /** The other runs, when run `p` becomes `r` and its payout `y`. */
  lemma OtherRuns(s: State, t: State, p: nat, y: Payout, r: Run)
    requires RunsOk(s) && SpentRowsOk(s) && Grows(s, t) && p < |s.runs|
    requires t.runs == s.runs[p := r] && t.db.payouts == s.db.payouts[p := y]
    requires RunOk(t.db, t.chain, p, y, r)
    ensures RunsOk(t)
  {
    forall q | 0 <= q < |t.runs| ensures RunOk(t.db, t.chain, q, t.db.payouts[q], t.runs[q]) {
      if q != p {
        RunOkGrows(s, t, q, s.db.payouts[q], s.runs[q]);
      }
    }
  }

  /** Spent rows keep their proof as long as SENT payouts stay SENT. */
  lemma OldSpentRows(s: State, t: State)
    requires SpentRowsOk(s) && Grows(s, t) && |s.db.payouts| <= |t.db.payouts|
    requires forall q :: 0 <= q < |s.db.payouts| && s.db.payouts[q].status.SENT? ==> t.db.payouts[q].status.SENT?
    requires forall u :: 0 <= u < |t.db.utxos| ==>
               if u < |s.db.utxos| then t.db.utxos[u] == s.db.utxos[u]
               else !t.db.utxos[u].isSpent && t.db.utxos[u].spentBy.None?
    ensures SpentRowsOk(t)
  {
    forall u | 0 <= u < |t.db.utxos| ensures SpentRowOk(t, u) {
      if u < |s.db.utxos| {
        assert SpentRowOk(s, u);
      }
    }
  }

  function Cost(y: Payout, r: Run, a: Account): int {
    if y.account == a && y.status.SENT? then y.minerFee + r.change else 0
  }

  lemma {:induction false} CostsUpdate(payouts: seq<Payout>, runs: seq<Run>, p: nat, y: Payout, r: Run, a: Account)
    requires |payouts| == |runs| && p < |runs|
    ensures Costs(payouts[p := y], runs[p := r], a)
            == Costs(payouts, runs, a) - Cost(payouts[p], runs[p], a) + Cost(y, r, a)
    decreases |runs|
  {
    var n := |payouts| - 1;
    if p < n {
      CostsUpdate(payouts[..n], runs[..n], p, y, r, a);
      assert payouts[p := y][..n] == payouts[..n][p := y] && runs[p := r][..n] == runs[..n][p := r];
    } else {
      assert payouts[p := y][..n] == payouts[..n] && runs[p := r][..n] == runs[..n];
    }
  }

  /** The ledger's invariant does not look at balances, payouts, or who spent an output. */
  lemma LedgerIgnoresPayouts(db: Db, after: Db, required: int)
    requires LedgerValid(db, required)
    requires after.invoices == db.invoices && after.transactions == db.transactions && after.fees == db.fees
    requires |after.utxos| == |db.utxos|
    requires forall u :: 0 <= u < |db.utxos| ==>
               after.utxos[u].invoice == db.utxos[u].invoice && after.utxos[u].txid == db.utxos[u].txid
    ensures LedgerValid(after, required)
  {
    forall i | 0 <= i < |after.invoices| ensures CreditedOnce(after, i) {
      assert CreditedOnce(db, i);
      UtxoCountKept(db.utxos, after.utxos, i);
    }
  }

  lemma {:induction false} UtxoCountKept(before: seq<Utxo>, after: seq<Utxo>, invoice: nat)
    requires |before| == |after| && forall u :: 0 <= u < |before| ==> after[u].invoice == before[u].invoice
    ensures UtxoCount(after, invoice) == UtxoCount(before, invoice)
  {
    if before != [] {
      UtxoCountKept(before[..|before| - 1], after[..|before| - 1], invoice);
    }
  }

  // ---------------------------------------------------------------------------
  // Invoices, payouts, credits
  // ---------------------------------------------------------------------------

  lemma {:induction false} NothingRefersTo(rows: seq<Transaction>, invoice: nat)
    requires forall i :: 0 <= i < |rows| ==> rows[i].invoice < invoice
    ensures CreditedCount(rows, invoice) == 0
  {
    if rows != [] {
      NothingRefersTo(rows[..|rows| - 1], invoice);
    }
  }

  lemma {:induction false} NoLogRefersTo(fees: seq<FeeLog>, rows: seq<Transaction>, invoice: nat)
    requires forall i :: 0 <= i < |rows| ==> rows[i].invoice < invoice
    ensures LogCount(fees, rows, invoice) == 0
  {
    if fees != [] {
      NoLogRefersTo(fees[..|fees| - 1], rows, invoice);
    }
  }

  lemma {:induction false} NoUtxoRefersTo(rows: seq<Utxo>, invoice: nat)
    requires forall i :: 0 <= i < |rows| ==> rows[i].invoice < invoice
    ensures UtxoCount(rows, invoice) == 0
  {
    if rows != [] {
      NoUtxoRefersTo(rows[..|rows| - 1], invoice);
    }
  }

  lemma CreateInvoiceKeepsLedger(db: Db, account: Account, required: int)
    requires LedgerValid(db, required)
    ensures LedgerValid(db.(invoices := db.invoices + [Invoice(account, NEW)]), required)
  {
    var after := db.(invoices := db.invoices + [Invoice(account, NEW)]);
    forall i | 0 <= i < |after.invoices| ensures CreditedOnce(after, i) {
      if i < |db.invoices| {
        assert CreditedOnce(db, i);
      } else {
        NothingRefersTo(db.transactions, i);
        NoLogRefersTo(db.fees, db.transactions, i);
        NoUtxoRefersTo(db.utxos, i);
      }
    }
  }

  lemma CreateInvoiceKeepsValid(s: State, account: Account, c: Config)
    requires Valid(s, c)
    ensures Valid(Step(s, CreateInvoice(account), c), c)
  {
    var t := Step(s, CreateInvoice(account), c);
    CreateInvoiceKeepsLedger(s.db, account, c.required);
    assert Owners(t.db.invoices) == Owners(s.db.invoices) + [account];
    forall q | 0 <= q < |t.runs| ensures RunOk(t.db, t.chain, q, t.db.payouts[q], t.runs[q]) {
      RunOkGrows(s, t, q, s.db.payouts[q], s.runs[q]);
    }
    OldSpentRows(s, t);
    forall a: Account ensures Balanced(t, a) {
      assert Balanced(s, a);
      UnspentOwnersExtend(s.db.utxos, Owners(s.db.invoices), account, a);
    }
  }

  lemma CreatePayoutKeepsValid(s: State, owner: Account, amount: nat, c: Config)
    requires Valid(s, c) && amount > 0
    ensures Valid(Step(s, CreatePayout(owner, amount), c), c)
  {
    var t := Step(s, CreatePayout(owner, amount), c);
    LedgerIgnoresPayouts(s.db, t.db, c.required);
    forall q | 0 <= q < |t.runs| ensures RunOk(t.db, t.chain, q, t.db.payouts[q], t.runs[q]) {
      if q < |s.runs| {
        RunOkGrows(s, t, q, s.db.payouts[q], s.runs[q]);
      }
    }
    OldSpentRows(s, t);
    forall a: Account ensures Balanced(t, a) {
      assert Balanced(s, a);
      var n := |s.runs|;
      assert t.db.payouts[..n] == s.db.payouts && t.runs[..n] == s.runs;
    }
  }

  /** What a job can change besides transactions and invoice states: one credit. */
  lemma CreditEntries(db: Db, job: Job, confirmations: int, required: int, commission: nat)
    requires LedgerValid(db, required)
    ensures
      var (after, outcome) := Processed(db, job, confirmations, required, commission);
      && Owners(after.invoices) == Owners(db.invoices) && after.payouts == db.payouts
      && (outcome != NowPaid ==> after.balances == db.balances && after.fees == db.fees && after.utxos == db.utxos)
      && (outcome == NowPaid ==>
            && job.invoice < |db.invoices|
            && Upserted(db.transactions, job, confirmations).Some?
            && var (rows, t) := Upserted(db.transactions, job, confirmations).value;
               var account := db.invoices[job.invoice].account;
               var gross := if t < |rows| then rows[t].received else 0;
               var fee := Fee(gross, commission);
               var b := BalanceOf(db.balances, account);
               && after.utxos == db.utxos + [Utxo(job.invoice, job.txid, gross, None, false)]
               && after.fees == db.fees + [FeeLog(t, account, gross, commission, fee, gross - fee)]
               && after.balances == db.balances[account := b.(available := b.available + (gross - fee))])
  {
    var (after, outcome) := Processed(db, job, confirmations, required, commission);
    if job.invoice < |db.invoices| && db.invoices[job.invoice].status != PAID {
      UpsertKeeps(db, job, confirmations);
      NoUtxoLookup(db.utxos, job.txid, job.invoice) by { assert CreditedOnce(db, job.invoice); }
      var (rows, t) := Upserted(db.transactions, job, confirmations).value;
      if outcome == NowPaid {
        var gross := rows[t].received;
        assert after.utxos == db.utxos + [Utxo(job.invoice, job.txid, gross, None, false)];
      }
    }
  }

  lemma ProcessJobKeepsValid(s: State, job: Job, confirmations: int, commission: nat, c: Config)
    requires Valid(s, c)
    ensures Valid(Step(s, ProcessJob(job, confirmations, commission), c), c)
  {
    var t := Step(s, ProcessJob(job, confirmations, commission), c);
    ProcessingKeepsValid(s.db, job, confirmations, c.required, commission);
    CreditEntries(s.db, job, confirmations, c.required, commission);
    hide Processed;
    forall q | 0 <= q < |t.runs| ensures RunOk(t.db, t.chain, q, t.db.payouts[q], t.runs[q]) {
      RunOkGrows(s, t, q, s.db.payouts[q], s.runs[q]);
    }
    OldSpentRows(s, t);
    forall a: Account ensures Balanced(t, a) {
      assert Balanced(s, a);
      if t.db.utxos != s.db.utxos {
        var n := |s.db.utxos|;
        assert t.db.utxos[..n] == s.db.utxos;
        assert t.db.fees[..|s.db.fees|] == s.db.fees;
      }
    }
  }

  // ---------------------------------------------------------------------------
  // The payout pipeline
  // ---------------------------------------------------------------------------

  /** Only run `p` and perhaps the chain changes, and the payout is not SENT. */
  lemma RunChangeKeepsValid(s: State, chain: map<string, nat>, p: nat, r: Run, c: Config)
    requires Valid(s, c) && p < |s.runs| && !s.db.payouts[p].status.SENT?
    requires forall k :: k in s.chain ==> k in chain && chain[k] == s.chain[k]
    requires RunOk(s.db, chain, p, s.db.payouts[p], r)
    ensures Valid(Put(s.(chain := chain), p, r), c)
  {
    var t := Put(s.(chain := chain), p, r);
    assert t.db.payouts == s.db.payouts[p := s.db.payouts[p]];
    OtherRuns(s, t, p, s.db.payouts[p], r);
    OldSpentRows(s, t);
    forall a: Account ensures Balanced(t, a) {
      assert Balanced(s, a);
      CostsUpdate(s.db.payouts, s.runs, p, s.db.payouts[p], r, a);
    }
  }

  lemma {:induction false} CoverIsSelection(db: Db, account: Account, coins: seq<Coin>, needed: int)
    requires QueryResult(db, account, coins) && Cover(coins, needed).Some?
    ensures SelectionOk(db, account, Cover(coins, needed).value)
  {
    forall i | 0 <= i < |coins| ensures Offered(db, account, coins[i]) {
    }
  }

  lemma PrepareKeepsValid(s: State, p: nat, coins: seq<Coin>, rate: nat, c: Config)
    requires Valid(s, c) && At(s, p, Idle) && p < |s.db.payouts|
    requires QueryResult(s.db, s.db.payouts[p].account, coins)
    ensures Valid(PrepareStep(s, p, coins, rate), c)
  {
    var y, r := s.db.payouts[p], s.runs[p];
    var t := PrepareStep(s, p, coins, rate);
    assert RunOk(s.db, s.chain, p, y, r);
    match Prepared(s.db, p, coins, rate)
    case None =>
      RunChangeKeepsValid(s, s.chain, p, t.runs[p], c);
    case Some((db, selected)) =>
      CoverIsSelection(s.db, y.account, coins, y.amount + RoughFee(rate));
      LedgerIgnoresPayouts(s.db, db, c.required);
      assert t.db.payouts == s.db.payouts[p := y];
      OtherRuns(s, t, p, y, t.runs[p]);
      OldSpentRows(s, t);
      forall a: Account ensures Balanced(t, a) {
        assert Balanced(s, a);
        CostsUpdate(s.db.payouts, s.runs, p, y, t.runs[p], a);
      }
  }

  lemma FeeNotNegative(inputs: nat, rate: nat)
    ensures Size(inputs, 2) * rate >= 0
  {
  }

  lemma BuildKeepsValid(s: State, p: nat, c: Config)
    requires Valid(s, c) && At(s, p, Frozen)
    ensures Valid(BuildStep(s, p, c), c)
  {
    assert RunOk(s.db, s.chain, p, s.db.payouts[p], s.runs[p]);
    var t := BuildStep(s, p, c);
    FeeNotNegative(|s.runs[p].selected|, EffectiveRate(s.runs[p].rate, c.defaultRate));
    RunChangeKeepsValid(s, s.chain, p, t.runs[p], c);
  }

  lemma RecordKeepsValid(s: State, p: nat, c: Config)
    requires Valid(s, c) && At(s, p, Signed)
    ensures Valid(RecordStep(s, p), c)
  {
    var y := s.db.payouts[p];
    assert RunOk(s.db, s.chain, p, y, s.runs[p]);
    var t := RecordStep(s, p);
    LedgerIgnoresPayouts(s.db, t.db, c.required);
    OtherRuns(s, t, p, t.db.payouts[p], t.runs[p]);
    OldSpentRows(s, t);
    forall a: Account ensures Balanced(t, a) {
      assert Balanced(s, a);
      CostsUpdate(s.db.payouts, s.runs, p, t.db.payouts[p], t.runs[p], a);
    }
  }

  lemma {:induction false} ConsumeEffect(db: Db, chain: map<string, nat>, coins: seq<Coin>, p: nat)
    ensures
      var after := Consume(db, chain, coins, p);
      && ConsumedBy(db, after, coins, p)
      && forall k :: k in chain && (forall i :: 0 <= i < |coins| ==> Outpoint(db, coins[i]) != k)
           ==> k in after && after[k] == chain[k]
  {
    if coins != [] {
      var n := |coins| - 1;
      ConsumeEffect(db, chain, coins[..n], p);
      assert forall i :: 0 <= i < n ==> coins[..n][i] == coins[i];
    }
  }

  lemma BroadcastKeepsValid(s: State, p: nat, accepted: bool, reported: bool, c: Config)
    requires Valid(s, c) && At(s, p, Stage.Recorded)
    ensures Valid(BroadcastStep(s, p, accepted, reported), c)
  {
    var y, r := s.db.payouts[p], s.runs[p];
    var t := BroadcastStep(s, p, accepted, reported);
    assert RunOk(s.db, s.chain, p, y, r);
    ConsumeEffect(s.db, s.chain, r.selected, p);
    RunChangeKeepsValid(s, t.chain, p, t.runs[p], c);
  }

  ghost predicate Includes(coins: seq<Coin>, u: nat) {
    exists i :: 0 <= i < |coins| && coins[i].id == u
  }

  lemma IncludesSnoc(coins: seq<Coin>, u: nat)
    requires coins != []
    ensures Includes(coins, u) <==> Includes(coins[..|coins| - 1], u) || coins[|coins| - 1].id == u
  {
    var n := |coins| - 1;
    if Includes(coins, u) && coins[n].id != u {
      var i :| 0 <= i < |coins| && coins[i].id == u;
      assert coins[..n][i].id == u;
    } else if Includes(coins[..n], u) {
      var i :| 0 <= i < n && coins[..n][i].id == u;
      assert coins[i].id == u;
    }
  }

  /** Marking writes the payout into the selected rows and leaves the others. */
  lemma {:induction false} MarkedRows(utxos: seq<Utxo>, coins: seq<Coin>, p: nat)
    requires forall i :: 0 <= i < |coins| ==> coins[i].id < |utxos|
    ensures MarkedSpent(utxos, coins, p).Some?
    ensures
      var rows := MarkedSpent(utxos, coins, p).value;
      && |rows| == |utxos|
      && forall u :: 0 <= u < |rows| ==>
           rows[u] == if Includes(coins, u) then utxos[u].(isSpent := true, spentBy := Some(p)) else utxos[u]
  {
    if coins != [] {
      var n := |coins| - 1;
      MarkedRows(utxos, coins[..n], p);
      forall u | 0 <= u < |utxos|
        ensures Includes(coins, u) <==> Includes(coins[..n], u) || coins[n].id == u
      {
        IncludesSnoc(coins, u);
      }
    }
  }

  /** Marking unspent coins of one account spends their total and nothing else. */
  lemma {:induction false} MarkedTotal(db: Db, account: Account, coins: seq<Coin>, p: nat, a: Account)
    requires SelectionOk(db, account, coins)
    requires forall i :: 0 <= i < |coins| ==> !db.utxos[coins[i].id].isSpent
    ensures MarkedSpent(db.utxos, coins, p).Some?
    ensures Unspent(MarkedSpent(db.utxos, coins, p).value, Owners(db.invoices), a)
            == Unspent(db.utxos, Owners(db.invoices), a) - if a == account then Total(coins) else 0
    decreases |coins|
  {
    if coins != [] {
      var n := |coins| - 1;
      MarkedTotal(db, account, coins[..n], p, a);
      MarkedRows(db.utxos, coins[..n], p);
      var rows := MarkedSpent(db.utxos, coins[..n], p).value;
      var u := coins[n].id;
      assert !Includes(coins[..n], u);
      hide Unspent;
      UnspentUpdate(rows, Owners(db.invoices), a, u, rows[u].(isSpent := true, spentBy := Some(p)));
    }
  }

  /** The coins of an accepted payout are unspent rows: a spent row names another consumer. */
  lemma AcceptedCoinsUnspent(s: State, p: nat)
    requires RunsOk(s) && SpentRowsOk(s) && At(s, p, Accepted)
    ensures forall i :: 0 <= i < |s.runs[p].selected| ==>
              s.runs[p].selected[i].id < |s.db.utxos| && !s.db.utxos[s.runs[p].selected[i].id].isSpent
  {
    assert RunOk(s.db, s.chain, p, s.db.payouts[p], s.runs[p]);
    forall i | 0 <= i < |s.runs[p].selected|
      ensures s.runs[p].selected[i].id < |s.db.utxos| && !s.db.utxos[s.runs[p].selected[i].id].isSpent
    {
      assert SpentRowOk(s, s.runs[p].selected[i].id);
    }
  }

  /** What settling an accepted payout changes. */
  lemma FinaliseEffect(s: State, p: nat)
    requires RunsOk(s) && SpentRowsOk(s) && At(s, p, Accepted)
    ensures
      var y, r := s.db.payouts[p], s.runs[p];
      var rows := MarkedSpent(s.db.utxos, r.selected, p);
      && rows.Some? && y.account in s.db.balances
      && var b := s.db.balances[y.account];
         FinaliseStep(s, p) == State(
           s.db.(utxos := rows.value,
                 balances := s.db.balances[y.account := b.(locked := b.locked - y.amount)],
                 payouts := s.db.payouts[p := y.(status := SENT, minerFee := r.fee, net := y.amount)]),
           s.chain, s.runs[p := r.(stage := Finished, holds := false)])
  {
    AcceptedCoinsUnspent(s, p);
    assert RunOk(s.db, s.chain, p, s.db.payouts[p], s.runs[p]);
    MarkedRows(s.db.utxos, s.runs[p].selected, p);
  }

  lemma FinaliseKeepsRuns(s: State, p: nat)
    requires RunsOk(s) && SpentRowsOk(s) && At(s, p, Accepted)
    ensures RunsOk(FinaliseStep(s, p)) && SpentRowsOk(FinaliseStep(s, p))
  {
    var y, r := s.db.payouts[p], s.runs[p];
    assert RunOk(s.db, s.chain, p, y, r);
    FinaliseEffect(s, p);
    AcceptedCoinsUnspent(s, p);
    MarkedRows(s.db.utxos, r.selected, p);
    var t := FinaliseStep(s, p);
    hide FinaliseStep, MarkedSpent;
    forall u | 0 <= u < |s.db.utxos| ensures s.db.utxos[u].isSpent ==> !Includes(r.selected, u) {
    }
    forall i | 0 <= i < |r.selected| ensures Includes(r.selected, r.selected[i].id) {
    }
    OtherRuns(s, t, p, t.db.payouts[p], t.runs[p]);
    forall u | 0 <= u < |t.db.utxos| ensures SpentRowOk(t, u) {
      assert SpentRowOk(s, u);
    }
  }

  lemma FinaliseKeepsValid(s: State, p: nat, c: Config)
    requires Valid(s, c) && At(s, p, Accepted)
    ensures Valid(FinaliseStep(s, p), c)
  {
    var y, r := s.db.payouts[p], s.runs[p];
    assert RunOk(s.db, s.chain, p, y, r);
    FinaliseEffect(s, p);
    FinaliseKeepsRuns(s, p);
    AcceptedCoinsUnspent(s, p);
    MarkedRows(s.db.utxos, r.selected, p);
    var t := FinaliseStep(s, p);
    hide FinaliseStep, MarkedSpent;
    LedgerIgnoresPayouts(s.db, t.db, c.required);
    forall a: Account ensures Balanced(t, a) {
      assert Balanced(s, a);
      MarkedTotal(s.db, y.account, r.selected, p, a);
      CostsUpdate(s.db.payouts, s.runs, p, t.db.payouts[p], t.runs[p], a);
    }
  }

  lemma MarkFailedKeepsValid(s: State, p: nat, c: Config)
    requires Valid(s, c) && At(s, p, Failing)
    ensures Valid(Step(s, MarkFailed(p), c), c)
  {
    var y := s.db.payouts[p];
    assert RunOk(s.db, s.chain, p, y, s.runs[p]);
    var t := Step(s, MarkFailed(p), c);
    LedgerIgnoresPayouts(s.db, t.db, c.required);
    OtherRuns(s, t, p, t.db.payouts[p], t.runs[p]);
    OldSpentRows(s, t);
    forall a: Account ensures Balanced(t, a) {
      assert Balanced(s, a);
      CostsUpdate(s.db.payouts, s.runs, p, t.db.payouts[p], t.runs[p], a);
    }
  }

  // ---------------------------------------------------------------------------
  // Every reachable state
  // ---------------------------------------------------------------------------

  lemma StepKeepsValid(s: State, e: Event, c: Config)
    requires Valid(s, c)
    ensures Valid(Step(s, e, c), c)
  {
    match e
    case CreateInvoice(account) => CreateInvoiceKeepsValid(s, account, c);
    case CreatePayout(owner, amount) => if amount > 0 { CreatePayoutKeepsValid(s, owner, amount, c); }
    case ProcessJob(job, confirmations, commission) => ProcessJobKeepsValid(s, job, confirmations, commission, c);
    case Prepare(p, coins, rate) =>
      if At(s, p, Idle) && QueryResult(s.db, s.db.payouts[p].account, coins) {
        PrepareKeepsValid(s, p, coins, rate, c);
      }
    case Build(p) => if At(s, p, Frozen) { BuildKeepsValid(s, p, c); }
    case Record(p) => if At(s, p, Signed) { RecordKeepsValid(s, p, c); }
    case Broadcast(p, accepted, reported) =>
      if At(s, p, Stage.Recorded) { BroadcastKeepsValid(s, p, accepted, reported, c); }
    case Finalise(p) => if At(s, p, Accepted) { FinaliseKeepsValid(s, p, c); }
    case Fail(p) => FailKeepsValid(s, p, c);
    case MarkFailed(p) => if At(s, p, Failing) { MarkFailedKeepsValid(s, p, c); }
    case GiveUp(p) => FailKeepsValid(s, p, c);
  }

  lemma FailKeepsValid(s: State, p: nat, c: Config)
    requires Valid(s, c)
    ensures Valid(Step(s, Fail(p), c), c) && Valid(Step(s, GiveUp(p), c), c)
  {
    if p < |s.runs| {
      assert RunOk(s.db, s.chain, p, s.db.payouts[p], s.runs[p]);
      var t, v := Step(s, Fail(p), c), Step(s, GiveUp(p), c);
      if !s.runs[p].stage.Finished? {
        if t != s { RunChangeKeepsValid(s, s.chain, p, t.runs[p], c); }
        if v != s { RunChangeKeepsValid(s, s.chain, p, v.runs[p], c); }
      }
    }
  }

  lemma {:induction false} ReachableValid(events: seq<Event>, c: Config)
    ensures Valid(Execute(INITIAL, events, c), c)
  {
    if events == [] {
      assert forall a: Account :: Balanced(INITIAL, a);
    } else {
      ReachableValid(events[..|events| - 1], c);
      StepKeepsValid(Execute(INITIAL, events[..|events| - 1], c), events[|events| - 1], c);
    }
  }
}
