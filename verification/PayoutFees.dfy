/** What the sizes and fees of the payout builder mean for the bytes that are broadcast. */
module PayoutFees {
  import opened ByteStrings
  import opened TxFormat
  import opened CoinSelection
  import opened PayoutBuilder
  import opened Store
  import opened Ledger
  import opened MoneyFlow
  import opened MoneyInvariants
  import opened MoneyTheorems

  // ---------------------------------------------------------------------------
  // Sizes are lengths
  // ---------------------------------------------------------------------------

  /** A transaction of pay-to-public-key-hash inputs and outputs: 107 bytes for a signature and a key, 25 for
      an output script, and counts that fit one byte. */
  ghost predicate IsPayment(tx: Tx, inputs: nat, outputs: nat) {
    && |tx.inputs| == inputs < 253 && |tx.outputs| == outputs < 253
    && (forall i :: i in tx.inputs ==> |i.scriptSig| == 107)
    && (forall o :: o in tx.outputs ==> |o.scriptPubkey| == 25)
  }

  lemma OneMore(each: nat, n: nat)
    ensures each + each * n == each * (n + 1)
  {
  }

  lemma {:induction false} ManyExactLength<T>(xs: seq<T>, put: T -> bytes, each: nat)
    requires forall x :: x in xs ==> |put(x)| == each
    ensures |PutMany(xs, put)| == each * |xs|
  {
    if xs != [] {
      ManyExactLength(xs[1..], put, each);
      OneMore(each, |xs[1..]|);
    }
  }

  /** The builder's size is the length of the serialised transaction. */
  lemma SizeIsLength(tx: Tx, inputs: nat, outputs: nat)
    requires IsPayment(tx, inputs, outputs)
    ensures |Legacy(tx)| == Size(inputs, outputs)
  {
    forall i | i in tx.inputs ensures |PutInput(i)| == 148 {
    }
    forall o | o in tx.outputs ensures |PutOutput(o)| == 34 {
    }
    ManyExactLength(tx.inputs, PutInput, 148);
    ManyExactLength(tx.outputs, PutOutput, 34);
  }

  /** The fee pays the rate for every byte of the transaction, and less than one dust threshold more than
      the bytes with a change output cost; without a rate from the node the default rate is paid. */
  lemma FeePaysForBytes(total: int, amount: int, rate: nat, default: nat, dust: nat, a: Amounts, tx: Tx, wide: Tx)
    requires Builds(total, |tx.inputs|, amount, EffectiveRate(rate, default), dust, a) && a.Amounts?
    requires IsPayment(tx, |tx.inputs|, a.outputs) && IsPayment(wide, |tx.inputs|, 2)
    ensures
      var paid := if rate == 0 then default else rate;
      && |Legacy(tx)| * paid <= a.fee
      && a.fee <= |Legacy(wide)| * paid + (if dust == 0 then 0 else dust - 1)
      && (a.outputs == 2 ==> a.fee == |Legacy(tx)| * paid)
      && (a.change > 0 ==> a.outputs == 2)
  {
    SizeIsLength(tx, |tx.inputs|, a.outputs);
    SizeIsLength(wide, |tx.inputs|, 2);
    NonNegativeRate(total, |tx.inputs|, amount, EffectiveRate(rate, default), dust, a);
    hide Legacy, IsPayment;
  }

  /** Selection provides for the bytes of a payment with ten inputs and two outputs. */
  lemma RoughFeeIsForTen(tx: Tx, rate: nat)
    requires IsPayment(tx, 10, 2)
    ensures RoughFee(rate) == |Legacy(tx)| * rate
  {
    SizeIsLength(tx, 10, 2);
  }

  // ---------------------------------------------------------------------------
  // The fees of SENT payouts
  // ---------------------------------------------------------------------------

  /** Fee and change are what the builder computes for the selected coins and the rate of the execution. */
  predicate Priced(y: Payout, r: Run, c: Config) {
    var a := Built(Total(r.selected), |r.selected|, y.amount, EffectiveRate(r.rate, c.defaultRate), c.dust);
    a.Amounts? && a.fee == r.fee && a.change == r.change
  }

  ghost predicate AllPriced(s: State, c: Config) {
    && |s.runs| == |s.db.payouts|
    && forall p :: 0 <= p < |s.runs| && HasAmounts(s.db.payouts[p], s.runs[p]) ==> Priced(s.db.payouts[p], s.runs[p], c)
  }

  lemma PricedStep(s: State, e: Event, c: Config)
    requires Valid(s, c) && AllPriced(s, c)
    ensures AllPriced(Step(s, e, c), c)
  {
    if e.CreateInvoice? || e.CreatePayout? || e.ProcessJob? {
      if e.ProcessJob? { CreditEntries(s.db, e.job, e.confirmations, c.required, e.commission); }
      hide Processed, Built;
    } else if Step(s, e, c) != s {
      SameAccounts(s, e, c);
      PricedRun(s, e, c);
      hide Step, Priced, HasAmounts;
    }
  }

  lemma PricedRun(s: State, e: Event, c: Config)
    requires Valid(s, c) && AllPriced(s, c) && Step(s, e, c) != s
    requires !e.CreateInvoice? && !e.CreatePayout? && !e.ProcessJob?
    requires e.p < |s.runs| && e.p < |Step(s, e, c).runs| && e.p < |Step(s, e, c).db.payouts|
    ensures
      var t := Step(s, e, c);
      HasAmounts(t.db.payouts[e.p], t.runs[e.p]) ==> Priced(t.db.payouts[e.p], t.runs[e.p], c)
  {
    assert RunOk(s.db, s.chain, e.p, s.db.payouts[e.p], s.runs[e.p]);
    if e.Finalise? { FinaliseEffect(s, e.p); }
  }

  lemma {:induction false} ReachablePriced(events: seq<Event>, c: Config)
    ensures AllPriced(Execute(INITIAL, events, c), c)
  {
    if events != [] {
      ReachablePriced(events[..|events| - 1], c);
      ReachableValid(events[..|events| - 1], c);
      PricedStep(Execute(INITIAL, events[..|events| - 1], c), events[|events| - 1], c);
    }
  }

  /** In every run, the miner fee stored for a SENT payout pays the rate of its execution, or the default rate
      where the node gave none, for every byte of a payment with its inputs and outputs, and coins are worth
      the requested amount, this fee and the change. */
  lemma SentFee(events: seq<Event>, c: Config, p: nat, tx: Tx)
    requires
      var s := Execute(INITIAL, events, c);
      && p < |s.runs| == |s.db.payouts| && s.db.payouts[p].status.SENT?
      && IsPayment(tx, |s.runs[p].selected|, if s.runs[p].change > 0 then 2 else 1)
    ensures
      var s := Execute(INITIAL, events, c);
      var y, r := s.db.payouts[p], s.runs[p];
      && |Legacy(tx)| * (if r.rate == 0 then c.defaultRate else r.rate) <= y.minerFee
      && Total(r.selected) == y.amount + y.minerFee + r.change
  {
    ReachablePriced(events, c);
    ReachableValid(events, c);
    var s := Execute(INITIAL, events, c);
    var y, r := s.db.payouts[p], s.runs[p];
    assert RunOk(s.db, s.chain, p, y, r) && Priced(y, r, c);
    SizeIsLength(tx, |r.selected|, if r.change > 0 then 2 else 1);
    BuiltCoversSize(Total(r.selected), |r.selected|, y.amount, EffectiveRate(r.rate, c.defaultRate), c.dust);
    hide MoneyFlow.Execute, Built, Legacy, IsPayment;
  }

  lemma BuiltCoversSize(total: int, inputs: nat, amount: int, rate: nat, dust: int)
    ensures
      var a := Built(total, inputs, amount, rate, dust);
      a.Amounts? ==> Size(inputs, if a.change > 0 then 2 else 1) * rate <= a.fee
  {
    assert Size(inputs, 1) * rate == Size(inputs, 2) * rate - 34 * rate;
  }
}
