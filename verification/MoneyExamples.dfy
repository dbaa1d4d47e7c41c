/** Runs that show what the payout pipeline does not guarantee. */
module MoneyExamples {
  import opened ByteStrings
  import opened Store
  import opened Ledger
  import opened CoinSelection
  import opened PayoutBuilder
  import opened Payouts
  import opened MoneyFlow

  const SHOP: Account := Account(0, 0)
  const DEPOSIT: Job := Job("deposit", 0, "", 20_000, "BTC", 0, 0, 0)
  const COIN: Coin := Coin(0, 20_000)

  /** One paid invoice of 20 000 satoshis and the payouts requested since. */
  ghost function Funded(c: Config, amounts: seq<nat>): State {
    State(Db([Invoice(SHOP, PAID)], [Transaction(0, "deposit", 20_000, c.required, true, 0)],
             map[SHOP := Balance(20_000, 0)], [FeeLog(0, SHOP, 20_000, 0, 0, 20_000)],
             [Utxo(0, "deposit", 20_000, None, false)],
             seq(|amounts|, i requires 0 <= i < |amounts| => Payout(SHOP, amounts[i], PayoutStatus.PENDING, 0, 0))),
          map[], seq(|amounts|, _ => FRESH))
  }

  lemma DepositCredited(c: Config)
    ensures
      var db := EMPTY.(invoices := [Invoice(SHOP, NEW)]);
      Processed(db, DEPOSIT, c.required, c.required, 0) == (Funded(c, []).db, NowPaid)
  {
    var db := EMPTY.(invoices := [Invoice(SHOP, NEW)]);
    var row := Transaction(0, "deposit", 20_000, c.required, false, 0);
    assert Find(TransactionKeys([]), ("deposit", 0)).Missing?;
    assert Upserted([], DEPOSIT, c.required) == Some(([row], 0)) by { assert [] + [row] == [row]; }
    var after := db.(transactions := [row]);
    CreditOfDeposit(after, row);
    assert CreditResult(after, 0, 0).db == Funded(c, []).db;
  }

  lemma CreditOfDeposit(after: Db, row: Transaction)
    requires row == Transaction(0, "deposit", 20_000, row.confirmations, false, 0)
    requires after == EMPTY.(invoices := [Invoice(SHOP, NEW)], transactions := [row])
    ensures CreditResult(after, 0, 0) == Credited(Db(
      [Invoice(SHOP, PAID)], [row.(credited := true)], map[SHOP := Balance(20_000, 0)],
      [FeeLog(0, SHOP, 20_000, 0, 0, 20_000)], [Utxo(0, "deposit", 20_000, None, false)], []))
  {
    assert RegisteredUtxos([], row) == Some([Utxo(0, "deposit", 20_000, None, false)]) by {
      assert Find(UtxoKeys([]), ("deposit", 0)).Missing? && !HasOutpoint([], "deposit");
      var u := Utxo(0, "deposit", 20_000, None, false);
      assert [] + [u] == [u];
    }
    assert Fee(20_000, 0) == 0;
    assert [Invoice(SHOP, NEW)][0 := Invoice(SHOP, PAID)] == [Invoice(SHOP, PAID)];
    assert [row][0 := row.(credited := true)] == [row.(credited := true)];
  }

  lemma DepositRun(c: Config) returns (events: seq<Event>)
    ensures Execute(INITIAL, events, c) == Funded(c, [])
  {
    var e1, e2 := CreateInvoice(SHOP), ProcessJob(DEPOSIT, c.required, 0);
    events := [e1] + [e2];
    hide Step, Funded;
    After(INITIAL, [], e1, c);
    After(INITIAL, [e1], e2, c);
    assert [] + [e1] == [e1];
    assert Execute(INITIAL, [], c) == INITIAL;
    var s1 := INITIAL.(db := EMPTY.(invoices := [Invoice(SHOP, NEW)]));
    FirstInvoice(c);
    DepositStep(s1, c);
  }

  lemma FirstInvoice(c: Config)
    ensures Step(INITIAL, CreateInvoice(SHOP), c) == INITIAL.(db := EMPTY.(invoices := [Invoice(SHOP, NEW)]))
  {
    assert [] + [Invoice(SHOP, NEW)] == [Invoice(SHOP, NEW)];
  }

  lemma DepositStep(s: State, c: Config)
    requires s == INITIAL.(db := EMPTY.(invoices := [Invoice(SHOP, NEW)]))
    ensures Step(s, ProcessJob(DEPOSIT, c.required, 0), c) == Funded(c, [])
  {
    DepositCredited(c);
    hide Processed;
    assert Funded(c, []).runs == [];
  }

  lemma RequestRun(c: Config, first: nat, second: nat) returns (events: seq<Event>)
    requires first > 0 && second > 0
    ensures Execute(INITIAL, events, c) == Funded(c, [first, second])
  {
    var deposit := DepositRun(c);
    var e1, e2 := CreatePayout(SHOP, first), CreatePayout(SHOP, second);
    events := deposit + [e1] + [e2];
    After(INITIAL, deposit, e1, c);
    After(INITIAL, deposit + [e1], e2, c);
    var s1 := Step(Funded(c, []), e1, c);
    assert s1 == Funded(c, [first]);
    assert Step(s1, e2, c).runs == Funded(c, [first, second]).runs;
    assert Step(s1, e2, c).db.payouts == Funded(c, [first, second]).db.payouts;
  }

  lemma CoinIsOffered(db: Db)
    requires db.utxos == [Utxo(0, "deposit", 20_000, None, false)] && db.invoices == [Invoice(SHOP, PAID)]
    ensures QueryResult(db, SHOP, [COIN])
    ensures forall needed: int :: 0 < needed <= 20_000 ==> Cover([COIN], needed) == Some([COIN])
  {
    assert Owners(db.invoices) == [SHOP];
    assert COIN in [COIN];
    assert [COIN][..0] == [] && [COIN][..1] == [COIN];
    assert Total([COIN]) == 20_000;
  }

  /** Row locks end with `_prepare`, so two payouts may hold the same coin. */
  lemma SameCoinSelectedTwice(c: Config) returns (events: seq<Event>)
    ensures
      var s := Execute(INITIAL, events, c);
      && At(s, 0, Frozen) && At(s, 1, Frozen)
      && s.runs[0].selected == [COIN] && s.runs[1].selected == [COIN]
  {
    var frozen := FreezeRun(c, 5_000);
    var e := Prepare(1, [COIN], 1);
    events := frozen + [e];
    After(INITIAL, frozen, e, c);
    CoinIsOffered(FirstFrozen(c, 5_000).db);
    hide QueryResult, Cover;
  }

  /** The state after payout 0 has been frozen with its 5 000 satoshis and payout 1 has not. */
  ghost function FirstFrozen(c: Config, second: nat): State {
    var s := Funded(c, [5_000, second]);
    State(s.db.(balances := map[SHOP := Balance(15_000, 5_000)]), map[],
          [Run(Frozen, true, [COIN], 1, 0, 0), FRESH])
  }

  lemma FreezeRun(c: Config, second: nat) returns (events: seq<Event>)
    requires second > 0
    ensures Execute(INITIAL, events, c) == FirstFrozen(c, second)
  {
    var start := RequestRun(c, 5_000, second);
    var e := Prepare(0, [COIN], 1);
    events := start + [e];
    After(INITIAL, start, e, c);
    var s := Funded(c, [5_000, second]);
    CoinIsOffered(s.db);
    hide QueryResult, Cover;
    assert Step(s, e, c).db.balances == map[SHOP := Balance(15_000, 5_000)];
    assert Step(s, e, c).runs == FirstFrozen(c, second).runs;
  }

  /** From the freeze to the broadcast of payout 0, whatever else is in the balance. */
  lemma BroadcastRun(events: seq<Event>, s: State, c: Config) returns (more: seq<Event>)
    requires s == Execute(INITIAL, events, c) && |s.db.payouts| == 2 && |s.runs| == 2
    requires s.runs[0] == Run(Frozen, true, [COIN], 1, 0, 0) && s.db.payouts[0].amount == 5_000
    requires s.db.utxos == [Utxo(0, "deposit", 20_000, None, false)] && s.chain == map[]
    ensures
      var t := Execute(INITIAL, more, c);
      && t.chain == map["deposit" := 0] && |t.runs| == 2 && |t.db.payouts| == 2
      && t.runs[0].stage == Accepted && t.runs[0].holds && t.runs[0].selected == [COIN]
      && t.db == s.db.(payouts := t.db.payouts) && t.db.payouts[1] == s.db.payouts[1]
      && t.db.payouts[0].status.PROCESSING? && t.db.payouts[0].amount == 5_000
      && t.db.payouts[0].account == s.db.payouts[0].account
  {
    var e1, e2, e3 := Build(0), Record(0), Broadcast(0, true, true);
    more := events + [e1] + [e2] + [e3];
    After(INITIAL, events, e1, c);
    After(INITIAL, events + [e1], e2, c);
    After(INITIAL, events + [e1] + [e2], e3, c);
    assert Total([COIN]) == 20_000 by { assert [COIN][..0] == []; }
    assert Built(20_000, 1, 5_000, 1, c.dust).Amounts?;
    var s1 := Step(s, e1, c);
    assert s1.runs[0].stage == Signed && s1.db == s.db && s1.chain == map[];
    var s2 := Step(s1, e2, c);
    assert s2.runs[0].stage == Stage.Recorded && s2.runs[0].selected == [COIN];
    assert Consume(s2.db, map[], [COIN], 0) == map["deposit" := 0] by { assert [COIN][..0] == []; }
  }

  /** If settling fails after the node has taken the transaction, the payout becomes FAILED and is
      refunded: the coin is gone on the chain and the whole balance is available again. */
  lemma FailedAfterBroadcast(c: Config) returns (events: seq<Event>)
    ensures
      var s := Execute(INITIAL, events, c);
      && |s.db.payouts| == 2 && s.db.payouts[0].status.FAILED?
      && "deposit" in s.chain && s.chain["deposit"] == 0
      && SHOP in s.db.balances && s.db.balances[SHOP] == Balance(20_000, 0)
  {
    var frozen := FreezeRun(c, 1);
    var start := BroadcastRun(frozen, FirstFrozen(c, 1), c);
    var e1, e2 := Fail(0), MarkFailed(0);
    events := start + [e1] + [e2];
    After(INITIAL, start, e1, c);
    After(INITIAL, start + [e1], e2, c);
    hide Execute;
    LostSettlement(Execute(INITIAL, start, c), c);
  }

  lemma LostSettlement(s: State, c: Config)
    requires |s.runs| == 2 && |s.db.payouts| == 2 && At(s, 0, Accepted)
    requires s.db.payouts[0].status.PROCESSING? && s.db.payouts[0].account == SHOP && s.db.payouts[0].amount == 5_000
    requires s.db.balances == map[SHOP := Balance(15_000, 5_000)]
    ensures
      var t := Step(Step(s, Fail(0), c), MarkFailed(0), c);
      && t.chain == s.chain && |t.db.payouts| == 2 && t.db.payouts[0].status.FAILED?
      && t.db.balances == map[SHOP := Balance(20_000, 0)]
  {
  }

  /** Payout 1 asks for more than is left, fails without freezing, and refunds what payout 0 holds. */
  lemma RefundStep(c: Config)
    ensures
      var s := Step(Step(FirstFrozen(c, 16_000), Prepare(1, [COIN], 1), c), MarkFailed(1), c);
      && s.runs == [Run(Frozen, true, [COIN], 1, 0, 0), FRESH.(stage := Finished)] && s.chain == map[]
      && s.db == FirstFrozen(c, 16_000).db.(balances := map[SHOP := Balance(20_000, 0)], payouts := s.db.payouts)
      && |s.db.payouts| == 2 && s.db.payouts[0] == Payout(SHOP, 5_000, PayoutStatus.PENDING, 0, 0)
      && s.db.payouts[1].status.FAILED?
  {
    var s := FirstFrozen(c, 16_000);
    CoinIsOffered(s.db);
    hide QueryResult, Cover;
    var s1 := Step(s, Prepare(1, [COIN], 1), c);
    assert s1 == s.(runs := s.runs[1 := FRESH.(stage := Failing)]);
    var s2 := Step(s1, MarkFailed(1), c);
    assert s2.db.balances == map[SHOP := Balance(20_000, 0)];
  }

  /** When executions overlap, the refund of a payout that froze nothing takes what another one holds;
      when that one is settled, locked is negative and available still shows the spent amount. */
  lemma RefundFromAnothersLock(c: Config) returns (events: seq<Event>)
    ensures
      var s := Execute(INITIAL, events, c);
      && |s.db.payouts| == 2 && s.db.payouts[0].status.SENT? && s.db.payouts[1].status.FAILED?
      && SHOP in s.db.balances && s.db.balances[SHOP] == Balance(20_000, -5_000)
  {
    var frozen := FreezeRun(c, 16_000);
    var e1, e2, e3 := Prepare(1, [COIN], 1), MarkFailed(1), Finalise(0);
    After(INITIAL, frozen, e1, c);
    After(INITIAL, frozen + [e1], e2, c);
    hide Step, FirstFrozen;
    RefundStep(c);
    var refunded := frozen + [e1] + [e2];
    var start := BroadcastRun(refunded, Execute(INITIAL, refunded, c), c);
    events := start + [e3];
    After(INITIAL, start, e3, c);
    SettleStep(Execute(INITIAL, start, c), c);
  }

  lemma SettleStep(s: State, c: Config)
    requires |s.runs| == 2 && |s.db.payouts| == 2 && At(s, 0, Accepted) && s.runs[0].selected == [COIN]
    requires s.db.utxos == [Utxo(0, "deposit", 20_000, None, false)]
    requires s.db.balances == map[SHOP := Balance(20_000, 0)]
    requires s.db.payouts[0].account == SHOP && s.db.payouts[0].amount == 5_000
    ensures
      var t := Step(s, Finalise(0), c);
      && t.db.balances == map[SHOP := Balance(20_000, -5_000)]
      && |t.db.payouts| == 2 && t.db.payouts[0].status.SENT? && t.db.payouts[1] == s.db.payouts[1]
  {
    assert MarkedSpent(s.db.utxos, [COIN], 0).Some? by { assert [COIN][..0] == []; }
  }
}
