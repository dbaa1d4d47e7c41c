/** When payouts in progress hold the same coin. Row locks end with `_prepare`, so the query offers coins
    that other payouts have selected and not yet spent. */
module CoinSharing {
  import opened Store
  import opened Ledger
  import opened Crediting
  import opened CoinSelection
  import opened PayoutBuilder
  import opened Payouts
  import opened MoneyFlow
  import opened MoneyInvariants
  import opened MoneyTheorems
  import opened LockedFunds

  /** Between the freeze and the end of the execution the selected coins are meant for this payout. */
  predicate Holding(r: Run) {
    r.stage.Frozen? || r.stage.Signed? || r.stage.Recorded? || r.stage.Accepted?
  }

  predicate HoldsCoin(r: Run, id: nat) {
    Holding(r) && exists i :: 0 <= i < |r.selected| && r.selected[i].id == id
  }

  ghost predicate HeldByOther(s: State, p: nat, id: nat) {
    exists q :: 0 <= q < |s.runs| && q != p && HoldsCoin(s.runs[q], id)
  }

  /** The coins that payouts other than `p` hold. */
  ghost function HeldByOthers(s: State, p: nat): iset<nat> {
    iset id: nat | HeldByOther(s, p, id)
  }

  ghost predicate Share(r: Run, v: Run) {
    exists id: nat :: HoldsCoin(r, id) && HoldsCoin(v, id)
  }

  /** No coin is held twice. */
  ghost predicate Disjoint(s: State) {
    forall p, q :: 0 <= p < |s.runs| && 0 <= q < |s.runs| && p != q ==> !Share(s.runs[p], s.runs[q])
  }

  /** The balance and the candidates suffice, some candidate is held by another payout, and the free
      candidates before the first such coin do not cover the need. */
  ghost predicate TakesHeldCoin(s: State, e: Event) {
    && e.Prepare? && At(s, e.p, Idle) && e.p < |s.db.payouts|
    && QueryResult(s.db, s.db.payouts[e.p].account, e.coins)
    && var y := s.db.payouts[e.p];
       var needed := y.amount + RoughFee(e.rate);
       var i := FirstHeld(e.coins, HeldByOthers(s, e.p));
       && y.account in s.db.balances && s.db.balances[y.account].available >= y.amount
       && i < |e.coins| && Total(e.coins[..i]) < needed <= Total(e.coins)
  }

  /** A successful `_prepare` selects a coin that another payout holds exactly when one is offered and
      the free candidates before it do not cover amount and fee estimate. */
  lemma SelectsHeldCoin(s: State, p: nat, coins: seq<Coin>, rate: nat)
    requires At(s, p, Idle) && p < |s.db.payouts| && At(PrepareStep(s, p, coins, rate), p, Frozen)
    ensures
      var i := FirstHeld(coins, HeldByOthers(s, p));
      var selected := PrepareStep(s, p, coins, rate).runs[p].selected;
      (exists j :: 0 <= j < |selected| && selected[j].id in HeldByOthers(s, p))
      <==> i < |coins| && Total(coins[..i]) < s.db.payouts[p].amount + RoughFee(rate)
  {
    var needed := s.db.payouts[p].amount + RoughFee(rate);
    var selected := PrepareStep(s, p, coins, rate).runs[p].selected;
    assert coins[..0] == [];
    CoverIsShortest(coins, needed, 0);
    HeldCoinPicked(coins, needed, selected, HeldByOthers(s, p));
  }

  /** Exactly when coins stop being held once: an event keeps selections disjoint if and only if it does
      not prepare a payout from too few free candidates. */
  lemma DisjointStep(s: State, e: Event, c: Config)
    requires Valid(s, c) && Disjoint(s)
    ensures Disjoint(Step(s, e, c)) <==> !TakesHeldCoin(s, e)
  {
    var t := Step(s, e, c);
    if e.CreateInvoice? || e.CreatePayout? || e.ProcessJob? {
      assert t.runs == s.runs || t.runs == s.runs + [FRESH] by { hide Processed; }
      hide Step;
      NewRunSharesNothing(s, t);
    } else if e.Prepare? && At(s, e.p, Idle) && QueryResult(s.db, s.db.payouts[e.p].account, e.coins) {
      assert RunOk(s.db, s.chain, e.p, s.db.payouts[e.p], s.runs[e.p]);
      PrepareSharing(s, e.p, e.coins, e.rate);
    } else if t != s {
      HoldsNoMore(s, e, c);
      hide Step;
      LessIsDisjoint(s, t);
    }
  }

  lemma NewRunSharesNothing(s: State, t: State)
    requires Disjoint(s) && (t.runs == s.runs || t.runs == s.runs + [FRESH])
    ensures Disjoint(t)
  {
    forall p, q | 0 <= p < |t.runs| && 0 <= q < |t.runs| && p != q ensures !Share(t.runs[p], t.runs[q]) {
      assert p < |s.runs| && q < |s.runs| ==> !Share(s.runs[p], s.runs[q]);
    }
  }

  lemma LessIsDisjoint(s: State, t: State)
    requires Disjoint(s) && |t.runs| == |s.runs|
    requires forall q :: 0 <= q < |s.runs| && Holding(t.runs[q]) ==>
               Holding(s.runs[q]) && t.runs[q].selected == s.runs[q].selected
    ensures Disjoint(t)
  {
    forall p, q | 0 <= p < |t.runs| && 0 <= q < |t.runs| && p != q ensures !Share(t.runs[p], t.runs[q]) {
      assert !Share(s.runs[p], s.runs[q]);
      LessIsShared(s.runs[p], s.runs[q], t.runs[p], t.runs[q]);
    }
  }

  lemma LessIsShared(r: Run, v: Run, after: Run, w: Run)
    requires Holding(after) ==> Holding(r) && after.selected == r.selected
    requires Holding(w) ==> Holding(v) && w.selected == v.selected
    ensures Share(after, w) ==> Share(r, v)
  {
    if Share(after, w) {
      var id :| HoldsCoin(after, id) && HoldsCoin(w, id);
      assert HoldsCoin(r, id) && HoldsCoin(v, id);
    }
  }

  /** A payout that another event than its preparation moves on holds what it held, or nothing. */
  lemma HoldsNoMore(s: State, e: Event, c: Config)
    requires Valid(s, c) && Step(s, e, c) != s
    requires !e.CreateInvoice? && !e.CreatePayout? && !e.ProcessJob?
    requires !(e.Prepare? && At(s, e.p, Idle) && QueryResult(s.db, s.db.payouts[e.p].account, e.coins))
    ensures
      var t := Step(s, e, c);
      && |t.runs| == |s.runs|
      && forall q :: 0 <= q < |s.runs| && Holding(t.runs[q]) ==>
           Holding(s.runs[q]) && t.runs[q].selected == s.runs[q].selected
  {
    SameAccounts(s, e, c);
    hide QueryResult, MarkedSpent, MarkedFailed, Consume, LedgerValid, RunsOk, SpentRowsOk, Balanced;
  }

  lemma PrepareSharing(s: State, p: nat, coins: seq<Coin>, rate: nat)
    requires Disjoint(s) && At(s, p, Idle) && p < |s.db.payouts| && s.db.payouts[p].status.PENDING?
    requires QueryResult(s.db, s.db.payouts[p].account, coins)
    ensures Disjoint(PrepareStep(s, p, coins, rate)) <==> !TakesHeldCoin(s, Prepare(p, coins, rate))
  {
    var t := PrepareStep(s, p, coins, rate);
    var r := t.runs[p];
    if coins != [] { PreparedWhen(s.db, p, coins, rate); }
    hide Cover;
    if At(t, p, Frozen) {
      SelectsHeldCoin(s, p, coins, rate);
      hide FirstHeld, PrepareStep, Prepared, QueryResult;
      forall q | 0 <= q < |t.runs| && q != p ensures t.runs[q] == s.runs[q] {
      }
    }
    hide QueryResult;
    SharingOfOne(s, t, p);
  }

  /** Exactly when a preparation that finds a candidate succeeds. */
  lemma PreparedWhen(db: Db, p: nat, coins: seq<Coin>, rate: nat)
    requires p < |db.payouts| && db.payouts[p].status.PENDING? && coins != []
    ensures
      var y := db.payouts[p];
      Prepared(db, p, coins, rate).Some? <==>
        && y.account in db.balances && db.balances[y.account].available >= y.amount
        && y.amount + RoughFee(rate) <= Total(coins)
  {
  }

  /** When one run changes, sharing is sharing with that run. */
  lemma SharingOfOne(s: State, t: State, p: nat)
    requires Disjoint(s) && p < |s.runs| == |t.runs|
    requires forall q :: 0 <= q < |s.runs| && q != p ==> t.runs[q] == s.runs[q]
    ensures Disjoint(t) <==>
              (Holding(t.runs[p]) ==>
                 forall j :: 0 <= j < |t.runs[p].selected| ==> t.runs[p].selected[j].id !in HeldByOthers(s, p))
  {
    if Holding(t.runs[p]) {
      if j :| 0 <= j < |t.runs[p].selected| && t.runs[p].selected[j].id in HeldByOthers(s, p) {
        var id := t.runs[p].selected[j].id;
        var q :| 0 <= q < |s.runs| && q != p && HoldsCoin(s.runs[q], id);
        assert HoldsCoin(t.runs[p], id) && Share(t.runs[p], t.runs[q]);
      }
    }
    forall q, v | 0 <= q < |t.runs| && 0 <= v < |t.runs| && q != v && q != p && v != p
      ensures !Share(t.runs[q], t.runs[v])
    {
      assert !Share(s.runs[q], s.runs[v]);
    }
  }

  // ---------------------------------------------------------------------------
  // Without overlap
  // ---------------------------------------------------------------------------

  /** Payouts of different accounts never hold the same coin. */
  lemma AccountsKeepApart(s: State, p: nat, q: nat)
    requires RunsOk(s) && p < |s.runs| && q < |s.runs|
    ensures Share(s.runs[p], s.runs[q]) ==> s.db.payouts[p].account == s.db.payouts[q].account
  {
    assert RunOk(s.db, s.chain, p, s.db.payouts[p], s.runs[p]) && RunOk(s.db, s.chain, q, s.db.payouts[q], s.runs[q]);
  }

  lemma SoloDisjoint(s: State, a: Account, p: nat, q: nat)
    requires RunsOk(s) && Solo(s, a) && p < |s.runs| && q < |s.runs| && p != q && s.db.payouts[p].account == a
    ensures !Share(s.runs[p], s.runs[q])
  {
    AccountsKeepApart(s, p, q);
    assert InProgress(s.runs[p]) ==> Alone(s, p);
  }

  /** When payout executions on one balance do not overlap, whatever happens on others, no coin that a payout
      of this account holds is held by any other payout. */
  lemma SerialDisjoint(events: seq<Event>, c: Config, a: Account, p: nat, q: nat)
    requires Serial(events, c, a)
    ensures
      var s := Execute(INITIAL, events, c);
      && |s.runs| == |s.db.payouts|
      && (p < |s.runs| && q < |s.runs| && p != q && s.db.payouts[p].account == a ==> !Share(s.runs[p], s.runs[q]))
  {
    SerialInvariant(events, c, a);
    ReachableValid(events, c);
    var s := Execute(INITIAL, events, c);
    if p < |s.runs| && q < |s.runs| && p != q && s.db.payouts[p].account == a {
      SoloDisjoint(s, a, p, q);
    }
  }

  /** A payout that starts while no other one of its account is in progress is offered free coins only. */
  lemma AloneIsOfferedFreeCoins(s: State, p: nat, coins: seq<Coin>)
    requires RunsOk(s) && Alone(s, p) && QueryResult(s.db, s.db.payouts[p].account, coins)
    ensures FirstHeld(coins, HeldByOthers(s, p)) == |coins|
  {
    forall j | 0 <= j < |coins| ensures coins[j].id !in HeldByOthers(s, p) {
      assert Offered(s.db, s.db.payouts[p].account, coins[j]);
      forall q | 0 <= q < |s.runs| && q != p ensures !HoldsCoin(s.runs[q], coins[j].id) {
        assert RunOk(s.db, s.chain, q, s.db.payouts[q], s.runs[q]);
      }
    }
  }
}
