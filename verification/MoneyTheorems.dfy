/** What the invariants mean for merchants: money is accounted for, invoices are credited once, coins are
    spent once, and which FAILED payouts have spent something. */
module MoneyTheorems {
  import opened ByteStrings
  import opened Store
  import opened Ledger
  import opened Crediting
  import opened CoinSelection
  import opened Payouts
  import opened MoneyFlow
  import opened MoneyInvariants

  /** In every reachable state of every interleaving, failures at any step included:
      unspent coins + miner fees and change of SENT payouts = available + locked + collected fees. */
  lemma DoubleEntry(events: seq<Event>, c: Config, a: Account)
    ensures
      var s := Execute(INITIAL, events, c);
      && |s.runs| == |s.db.payouts|
      && Unspent(s.db.utxos, Owners(s.db.invoices), a) + Costs(s.db.payouts, s.runs, a)
         == BalanceOf(s.db.balances, a).available + BalanceOf(s.db.balances, a).locked + FeeTotal(s.db.fees, a)
  {
    ReachableValid(events, c);
    assert Balanced(Execute(INITIAL, events, c), a);
  }

  // ---------------------------------------------------------------------------
  // Invoices are credited once
  // ---------------------------------------------------------------------------

  lemma StepKeepsPaid(s: State, e: Event, c: Config, i: nat)
    requires Valid(s, c) && i < |s.db.invoices| && s.db.invoices[i].status == PAID
    ensures i < |Step(s, e, c).db.invoices| && Step(s, e, c).db.invoices[i] == s.db.invoices[i]
  {
    if e.ProcessJob? {
      PaidIsFinal(s.db, e.job, e.confirmations, c.required, e.commission, i);
      hide Processed;
    }
  }

  lemma {:induction false} PaidForGood(s: State, events: seq<Event>, c: Config, i: nat)
    requires Valid(s, c) && i < |s.db.invoices| && s.db.invoices[i].status == PAID
    ensures Valid(Execute(s, events, c), c)
    ensures i < |Execute(s, events, c).db.invoices| && Execute(s, events, c).db.invoices[i] == s.db.invoices[i]
  {
    if events != [] {
      var n := |events| - 1;
      PaidForGood(s, events[..n], c, i);
      StepKeepsValid(Execute(s, events[..n], c), events[n], c);
      StepKeepsPaid(Execute(s, events[..n], c), events[n], c, i);
    }
  }

  /** Over every run, with duplicate jobs in any order: an invoice is PAID exactly when it has one
      credited transaction, one fee log and one registered output, and otherwise it has none; a
      credited row keeps enough confirmations, and a credit never meets a credited row. */
  lemma InvoiceCreditedOnce(events: seq<Event>, c: Config, i: nat)
    ensures
      var db := Execute(INITIAL, events, c).db;
      && (i < |db.invoices| ==>
            var n := if db.invoices[i].status == PAID then 1 else 0;
            && CreditedCount(db.transactions, i) == n
            && LogCount(db.fees, db.transactions, i) == n
            && UtxoCount(db.utxos, i) == n)
      && (forall t :: 0 <= t < |db.transactions| && db.transactions[t].credited ==>
            db.transactions[t].confirmations >= c.required)
      && (forall job: Job, n: int, commission: nat :: Processed(db, job, n, c.required, commission).1 != WasCredited)
  {
    ReachableValid(events, c);
    var db := Execute(INITIAL, events, c).db;
    if i < |db.invoices| { assert CreditedOnce(db, i); }
    forall job: Job, n: int, commission: nat ensures Processed(db, job, n, c.required, commission).1 != WasCredited {
      ProcessingKeepsValid(db, job, n, c.required, commission);
    }
  }

  // ---------------------------------------------------------------------------
  // Coins are spent once
  // ---------------------------------------------------------------------------

  lemma FinaliseGrows(s: State, p: nat)
    requires RunsOk(s) && SpentRowsOk(s) && At(s, p, Accepted)
    ensures Grows(s, FinaliseStep(s, p))
  {
    FinaliseEffect(s, p);
    AcceptedCoinsUnspent(s, p);
    MarkedRows(s.db.utxos, s.runs[p].selected, p);
    assert RunOk(s.db, s.chain, p, s.db.payouts[p], s.runs[p]);
    hide FinaliseStep, MarkedSpent;
  }

  lemma BroadcastGrows(s: State, p: nat, accepted: bool, reported: bool)
    requires p < |s.runs|
    ensures Grows(s, BroadcastStep(s, p, accepted, reported))
  {
    ConsumeEffect(s.db, s.chain, s.runs[p].selected, p);
  }

  lemma ProcessJobGrows(s: State, job: Job, confirmations: int, commission: nat, c: Config)
    requires Valid(s, c)
    ensures Grows(s, Step(s, ProcessJob(job, confirmations, commission), c))
  {
    CreditEntries(s.db, job, confirmations, c.required, commission);
    hide Processed;
  }

  /** Every event keeps rows and chain: a spent row is never written again. */
  lemma StepGrows(s: State, e: Event, c: Config)
    requires Valid(s, c)
    ensures Grows(s, Step(s, e, c))
  {
    hide BroadcastStep, FinaliseStep, Processed;
    match e
    case CreateInvoice(account) =>
      assert Owners(Step(s, e, c).db.invoices) == Owners(s.db.invoices) + [account];
    case ProcessJob(job, confirmations, commission) => ProcessJobGrows(s, job, confirmations, commission, c);
    case Broadcast(p, accepted, reported) =>
      if At(s, p, Stage.Recorded) { BroadcastGrows(s, p, accepted, reported); }
    case Finalise(p) => if At(s, p, Accepted) { FinaliseGrows(s, p); }
    case _ =>
  }

  /** Over any later run: whoever spent a row stays its spender, and chain entries stay. */
  lemma {:induction false} SpentForGood(s: State, events: seq<Event>, c: Config)
    requires Valid(s, c)
    ensures Valid(Execute(s, events, c), c)
    ensures Grows(s, Execute(s, events, c))
  {
    if events != [] {
      var before := Execute(s, events[..|events| - 1], c);
      SpentForGood(s, events[..|events| - 1], c);
      StepKeepsValid(before, events[|events| - 1], c);
      StepGrows(before, events[|events| - 1], c);
    }
  }

  /** In every reachable state a coin belongs to at most one SENT payout, although concurrent
      payouts may select it twice; and the spent rows are exactly the coins of SENT payouts, each
      consumed on the chain by the payout it names. */
  lemma SpentOnce(events: seq<Event>, c: Config, p: nat, q: nat)
    ensures
      var s := Execute(INITIAL, events, c);
      && |s.runs| == |s.db.payouts|
      && (p < |s.runs| && q < |s.runs| && p != q && s.db.payouts[p].status.SENT? && s.db.payouts[q].status.SENT? ==>
            forall i, j :: 0 <= i < |s.runs[p].selected| && 0 <= j < |s.runs[q].selected| ==>
              s.runs[p].selected[i].id != s.runs[q].selected[j].id)
      && (forall u :: 0 <= u < |s.db.utxos| && s.db.utxos[u].spentBy == Some(p) ==>
            && p < |s.runs| && s.db.payouts[p].status.SENT?
            && s.db.utxos[u].txid in s.chain && s.chain[s.db.utxos[u].txid] == p)
      && (p < |s.runs| && s.db.payouts[p].status.SENT? ==> SpentFor(s.db, s.runs[p].selected, p))
  {
    var s := Execute(INITIAL, events, c);
    ReachableValid(events, c);
    if p < |s.runs| { assert RunOk(s.db, s.chain, p, s.db.payouts[p], s.runs[p]); }
    if q < |s.runs| { assert RunOk(s.db, s.chain, q, s.db.payouts[q], s.runs[q]); }
    forall u | 0 <= u < |s.db.utxos| && s.db.utxos[u].spentBy == Some(p)
      ensures p < |s.runs| && s.db.payouts[p].status.SENT?
              && s.db.utxos[u].txid in s.chain && s.chain[s.db.utxos[u].txid] == p
    {
      assert SpentRowOk(s, u);
    }
  }

  /** An event of the pipeline changes one run, which was idle or in progress, and no account. */
  lemma SameAccounts(s: State, e: Event, c: Config)
    requires Valid(s, c) && Step(s, e, c) != s
    requires !e.CreateInvoice? && !e.CreatePayout? && !e.ProcessJob?
    ensures
      var t := Step(s, e, c);
      && e.p < |s.runs| == |t.runs| && |s.db.payouts| == |t.db.payouts|
      && (forall q :: 0 <= q < |s.runs| && q != e.p ==> t.runs[q] == s.runs[q] && t.db.payouts[q] == s.db.payouts[q])
      && (forall q :: 0 <= q < |s.runs| ==> t.db.payouts[q].account == s.db.payouts[q].account)
      && (s.runs[e.p].stage.Idle? ==> e.Prepare? || e.Fail?)
      && !s.runs[e.p].stage.Finished? && (!e.Broadcast? ==> t.chain == s.chain)
  {
    if e.Finalise? {
      FinaliseEffect(s, e.p);
      hide FinaliseStep;
    }
  }

  // ---------------------------------------------------------------------------
  // FAILED and the chain
  // ---------------------------------------------------------------------------

  /** The chain has a transaction of this payout. */
  ghost predicate Consumed(s: State, p: nat) {
    exists k :: k in s.chain && s.chain[k] == p
  }

  ghost predicate FailedUnspent(s: State) {
    forall p :: 0 <= p < |s.db.payouts| && s.db.payouts[p].status.FAILED? ==> !Consumed(s, p)
  }

  /** The node takes the transaction of `p`, whether or not it says so. */
  predicate Accepts(s: State, e: Event, p: nat) {
    e.Broadcast? && e.p == p && At(s, p, Stage.Recorded) && e.accepted && Spendable(s, s.runs[p].selected)
  }

  /** The node has taken the transaction, but the execution goes on to mark the payout FAILED. */
  predicate LosesBroadcast(s: State, e: Event, p: nat) {
    (e == Fail(p) && At(s, p, Accepted)) || (Accepts(s, e, p) && !e.reported)
  }

  /** The node has taken the transaction, and the execution knows it. */
  predicate Settles(s: State, p: nat) {
    p < |s.runs| && p < |s.db.payouts| && (s.runs[p].stage.Accepted? || s.db.payouts[p].status.SENT?)
  }

  /** Exactly when "FAILED payouts have spent nothing" ends: when a payout is marked FAILED that has. */
  lemma FailedMeansUnspent(s: State, e: Event, c: Config)
    requires Valid(s, c) && FailedUnspent(s)
    ensures FailedUnspent(Step(s, e, c)) <==> !(e.MarkFailed? && At(s, e.p, Failing) && Consumed(s, e.p))
  {
    var t := Step(s, e, c);
    forall p: nat ensures Consumed(t, p) <==> Consumed(s, p) || Accepts(s, e, p) {
      ConsumedStep(s, e, c, p);
    }
    forall p | 0 <= p < |t.db.payouts| && t.db.payouts[p].status.FAILED?
      ensures !Accepts(s, e, p)
      ensures (p < |s.db.payouts| && s.db.payouts[p].status.FAILED?) || (e == MarkFailed(p) && At(s, p, Failing))
    {
      FailedStep(s, e, c, p);
    }
    if e.MarkFailed? && At(s, e.p, Failing) {
      assert t.db.payouts[e.p].status.FAILED?;
    }
  }

  /** Only `_mark_failed` makes a payout FAILED. */
  lemma FailedStep(s: State, e: Event, c: Config, p: nat)
    requires Valid(s, c) && p < |Step(s, e, c).db.payouts| && Step(s, e, c).db.payouts[p].status.FAILED?
    ensures !Accepts(s, e, p)
    ensures (p < |s.db.payouts| && s.db.payouts[p].status.FAILED?) || (e == MarkFailed(p) && At(s, p, Failing))
  {
    if p < |s.runs| { assert RunOk(s.db, s.chain, p, s.db.payouts[p], s.runs[p]); }
    if e.ProcessJob? {
      CreditEntries(s.db, e.job, e.confirmations, c.required, e.commission);
      hide Processed;
    } else if e.Finalise? && At(s, e.p, Accepted) {
      FinaliseEffect(s, e.p);
      hide FinaliseStep;
    }
  }

  /** A payout consumes outpoints when the node takes its transaction, and at no other time. */
  lemma ConsumedStep(s: State, e: Event, c: Config, p: nat)
    requires Valid(s, c)
    ensures Consumed(Step(s, e, c), p) <==> Consumed(s, p) || Accepts(s, e, p)
  {
    var t := Step(s, e, c);
    if e.Broadcast? && At(s, e.p, Stage.Recorded) && e.accepted && Spendable(s, s.runs[e.p].selected) {
      TakenStep(s, e.p);
      var after := Consume(s.db, s.chain, s.runs[e.p].selected, e.p);
      assert t.chain == after;
      if Consumed(s, p) {
        var k :| k in s.chain && s.chain[k] == p;
        assert k in t.chain && t.chain[k] == p;
      }
    } else {
      ChainUnchanged(s, e, c);
    }
  }

  lemma ChainUnchanged(s: State, e: Event, c: Config)
    requires Valid(s, c)
    requires !(e.Broadcast? && At(s, e.p, Stage.Recorded) && e.accepted && Spendable(s, s.runs[e.p].selected))
    ensures Step(s, e, c).chain == s.chain
  {
  }

  /** An accepted transaction adds entries for its own payout, at least one, and changes none. */
  lemma TakenStep(s: State, p: nat)
    requires RunsOk(s) && At(s, p, Stage.Recorded) && Spendable(s, s.runs[p].selected)
    ensures
      var after := Consume(s.db, s.chain, s.runs[p].selected, p);
      && (exists k :: k in after && after[k] == p)
      && (forall k :: k in s.chain ==> k in after && after[k] == s.chain[k])
      && (forall k :: k in after ==> after[k] == p || (k in s.chain && after[k] == s.chain[k]))
  {
    var coins := s.runs[p].selected;
    assert RunOk(s.db, s.chain, p, s.db.payouts[p], s.runs[p]);
    assert coins != [];
    ConsumeEffect(s.db, s.chain, coins, p);
    ConsumeOnlyFor(s.db, s.chain, coins, p);
    assert Outpoint(s.db, coins[0]) in Consume(s.db, s.chain, coins, p);
  }

  lemma {:induction false} ConsumeOnlyFor(db: Db, chain: map<string, nat>, coins: seq<Coin>, p: nat)
    ensures
      var after := Consume(db, chain, coins, p);
      forall k :: k in after ==> after[k] == p || (k in chain && after[k] == chain[k])
  {
    if coins != [] {
      ConsumeOnlyFor(db, chain, coins[..|coins| - 1], p);
    }
  }

  /** What the node has taken is settled, or on its way there, until an event loses it. */
  lemma SettlesStep(s: State, e: Event, c: Config, p: nat)
    requires Valid(s, c)
    ensures Settles(Step(s, e, c), p) || LosesBroadcast(s, e, p) <==> Settles(s, p) || Accepts(s, e, p)
  {
    if e.CreateInvoice? || e.CreatePayout? || e.ProcessJob? {
      if e.ProcessJob? { CreditEntries(s.db, e.job, e.confirmations, c.required, e.commission); }
      assert Settles(Step(s, e, c), p) <==> Settles(s, p) by { hide Processed; }
    } else if Step(s, e, c) != s {
      SettlesPipeline(s, e, c, p);
    }
  }

  lemma SettlesPipeline(s: State, e: Event, c: Config, p: nat)
    requires Valid(s, c) && Step(s, e, c) != s
    requires !e.CreateInvoice? && !e.CreatePayout? && !e.ProcessJob?
    ensures Settles(Step(s, e, c), p) || LosesBroadcast(s, e, p) <==> Settles(s, p) || Accepts(s, e, p)
  {
    SameAccounts(s, e, c);
    if p == e.p {
      assert RunOk(s.db, s.chain, p, s.db.payouts[p], s.runs[p]);
      if e.Finalise? { FinaliseEffect(s, p); }
      hide FinaliseStep, MarkedFailed, Cover, Consume, QueryResult, RunOk;
    } else {
      hide Step;
    }
  }

  /** Some event of the run lost the broadcast of payout `p`. */
  ghost predicate Lost(events: seq<Event>, c: Config, p: nat) {
    exists i :: 0 <= i < |events| && LosesBroadcast(Execute(INITIAL, events[..i], c), events[i], p)
  }

  lemma LostAlready(events: seq<Event>, c: Config, p: nat)
    requires events != []
    ensures
      var n := |events| - 1;
      Lost(events, c, p) <==> Lost(events[..n], c, p) || LosesBroadcast(Execute(INITIAL, events[..n], c), events[n], p)
  {
    hide Step, LosesBroadcast, Execute;
    var n := |events| - 1;
    assert forall i :: 0 <= i < n ==> events[..n][..i] == events[..i] && events[..n][i] == events[i];
    if Lost(events[..n], c, p) {
      var i :| 0 <= i < n && LosesBroadcast(Execute(INITIAL, events[..n][..i], c), events[..n][i], p);
      assert LosesBroadcast(Execute(INITIAL, events[..i], c), events[i], p);
    }
  }

  /** In every run: the payouts that have consumed anything are those whose transaction was accepted
      and is settled or about to be, and those whose broadcast was lost. */
  lemma {:induction false} ConsumedExactly(events: seq<Event>, c: Config, p: nat)
    ensures
      var s := Execute(INITIAL, events, c);
      Consumed(s, p) <==> Settles(s, p) || Lost(events, c, p)
  {
    if events != [] {
      var n := |events| - 1;
      var before := Execute(INITIAL, events[..n], c);
      ReachableValid(events[..n], c);
      ConsumedExactly(events[..n], c, p);
      ConsumedStep(before, events[n], c, p);
      SettlesStep(before, events[n], c, p);
      LostAlready(events, c, p);
      hide Step, Consumed, Settles, Lost, LosesBroadcast;
    }
  }

  /** In every run: a FAILED payout has consumed a coin if and only if the answer to its broadcast, or
      the settlement after it, was lost. */
  lemma FailedSpendsWhenLost(events: seq<Event>, c: Config, p: nat)
    requires
      var s := Execute(INITIAL, events, c);
      p < |s.db.payouts| && s.db.payouts[p].status.FAILED?
    ensures Consumed(Execute(INITIAL, events, c), p) <==> Lost(events, c, p)
  {
    var s := Execute(INITIAL, events, c);
    ReachableValid(events, c);
    ConsumedExactly(events, c, p);
    assert RunOk(s.db, s.chain, p, s.db.payouts[p], s.runs[p]);
  }
}
