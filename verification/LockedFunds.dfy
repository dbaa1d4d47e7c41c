/** When the two balances of an account can be trusted. A refund takes whatever is locked, up to the amount
    of the FAILED payout, whether or not that payout had frozen anything. */
module LockedFunds {
  import opened Store
  import opened Ledger
  import opened Crediting
  import opened CoinSelection
  import opened Payouts
  import opened MoneyFlow
  import opened MoneyInvariants
  import opened MoneyTheorems

  // ---------------------------------------------------------------------------
  // What is held and what was sent
  // ---------------------------------------------------------------------------

  /** The amounts frozen and not yet settled or refunded. */
  function Held(payouts: seq<Payout>, runs: seq<Run>, a: Account): int
    requires |payouts| == |runs|
  {
    if payouts == [] then 0 else
    var n := |payouts| - 1;
    Held(payouts[..n], runs[..n], a) + HeldBy(payouts[n], runs[n], a)
  }

  function HeldBy(y: Payout, r: Run, a: Account): int {
    if y.account == a && r.holds then y.amount else 0
  }

  /** The amounts that left for good. */
  function Sent(payouts: seq<Payout>, a: Account): int {
    if payouts == [] then 0 else
    var n := |payouts| - 1;
    Sent(payouts[..n], a) + SentBy(payouts[n], a)
  }

  function SentBy(y: Payout, a: Account): int {
    if y.account == a && y.status.SENT? then y.amount else 0
  }

  lemma {:induction false} HeldUpdate(payouts: seq<Payout>, runs: seq<Run>, p: nat, y: Payout, r: Run, a: Account)
    requires |payouts| == |runs| && p < |runs|
    ensures Held(payouts[p := y], runs[p := r], a)
            == Held(payouts, runs, a) - HeldBy(payouts[p], runs[p], a) + HeldBy(y, r, a)
    decreases |runs|
  {
    var n := |payouts| - 1;
    if p < n {
      HeldUpdate(payouts[..n], runs[..n], p, y, r, a);
      assert payouts[p := y][..n] == payouts[..n][p := y] && runs[p := r][..n] == runs[..n][p := r];
    } else {
      assert payouts[p := y][..n] == payouts[..n] && runs[p := r][..n] == runs[..n];
    }
  }

  lemma {:induction false} SentUpdate(payouts: seq<Payout>, p: nat, y: Payout, a: Account)
    requires p < |payouts|
    ensures Sent(payouts[p := y], a) == Sent(payouts, a) - SentBy(payouts[p], a) + SentBy(y, a)
    decreases |payouts|
  {
    var n := |payouts| - 1;
    if p < n {
      SentUpdate(payouts[..n], p, y, a);
      assert payouts[p := y][..n] == payouts[..n][p := y];
    } else {
      assert payouts[p := y][..n] == payouts[..n];
    }
  }

  /** A run's own amount is part of what is held. */
  lemma {:induction false} HeldAtLeast(payouts: seq<Payout>, runs: seq<Run>, p: nat, a: Account)
    requires |payouts| == |runs|
    ensures Held(payouts, runs, a) >= if p < |runs| then HeldBy(payouts[p], runs[p], a) else 0
  {
    if payouts != [] {
      var n := |payouts| - 1;
      HeldAtLeast(payouts[..n], runs[..n], p, a);
      HeldAtLeast(payouts[..n], runs[..n], n, a);
    }
  }

  lemma {:induction false} HeldByAtMostOne(payouts: seq<Payout>, runs: seq<Run>, p: nat, a: Account)
    requires |payouts| == |runs|
    requires forall q :: 0 <= q < |runs| && q != p ==> HeldBy(payouts[q], runs[q], a) == 0
    ensures Held(payouts, runs, a) == if p < |runs| then HeldBy(payouts[p], runs[p], a) else 0
  {
    if payouts != [] {
      HeldByAtMostOne(payouts[..|payouts| - 1], runs[..|runs| - 1], p, a);
    }
  }

  // ---------------------------------------------------------------------------
  // What every event does to the balances
  // ---------------------------------------------------------------------------

  /** What is locked beyond what payouts hold. */
  ghost function LockGap(s: State, a: Account): int
    requires |s.runs| == |s.db.payouts|
  {
    BalanceOf(s.db.balances, a).locked - Held(s.db.payouts, s.runs, a)
  }

  /** What is available beyond what was credited, less what was sent and what is held. */
  ghost function AvailableGap(s: State, a: Account): int
    requires |s.runs| == |s.db.payouts|
  {
    BalanceOf(s.db.balances, a).available
    - (NetTotal(s.db.fees, a) - Sent(s.db.payouts, a) - Held(s.db.payouts, s.runs, a))
  }

  /** The event marks a payout of the account FAILED. */
  predicate Refunds(s: State, e: Event, a: Account) {
    e.MarkFailed? && At(s, e.p, Failing) && e.p < |s.db.payouts| && s.db.payouts[e.p].account == a
  }

  /** What a refund gives back beyond what its payout holds. */
  function Excess(s: State, e: Event, a: Account): int {
    if !Refunds(s, e, a) then 0 else
    Min(BalanceOf(s.db.balances, a).locked, s.db.payouts[e.p].amount) - HeldBy(s.db.payouts[e.p], s.runs[e.p], a)
  }

  /** Every event moves both balances by what payouts hold and have sent and by what was credited, except
      for the excess of a refund, which goes from locked to available. */
  lemma FundsStep(s: State, e: Event, c: Config, a: Account)
    requires Valid(s, c)
    ensures
      var t := Step(s, e, c);
      && |t.runs| == |t.db.payouts|
      && LockGap(t, a) == LockGap(s, a) - Excess(s, e, a)
      && AvailableGap(t, a) == AvailableGap(s, a) + Excess(s, e, a)
  {
    match e
    case CreateInvoice(_) =>
    case CreatePayout(owner, amount) => NewPayout(s, owner, amount, c, a);
    case ProcessJob(job, confirmations, commission) => CreditMoves(s, job, confirmations, commission, c, a);
    case _ =>
      hide Step;
      PipelineMoves(s, e, c, a);
      if Step(s, e, c) != s { MovesGaps(s, e, c, a); }
  }

  lemma NewPayout(s: State, owner: Account, amount: nat, c: Config, a: Account)
    requires |s.runs| == |s.db.payouts|
    ensures
      var t := Step(s, CreatePayout(owner, amount), c);
      |t.runs| == |t.db.payouts| && LockGap(t, a) == LockGap(s, a) && AvailableGap(t, a) == AvailableGap(s, a)
  {
    if amount > 0 {
      var t := Step(s, CreatePayout(owner, amount), c);
      var n := |s.runs|;
      assert t.db.payouts[..n] == s.db.payouts && t.runs[..n] == s.runs;
    }
  }

  lemma CreditMoves(s: State, job: Job, confirmations: int, commission: nat, c: Config, a: Account)
    requires Valid(s, c)
    ensures
      var t := Step(s, ProcessJob(job, confirmations, commission), c);
      |t.runs| == |t.db.payouts| && LockGap(t, a) == LockGap(s, a) && AvailableGap(t, a) == AvailableGap(s, a)
  {
    CreditEntries(s.db, job, confirmations, c.required, commission);
    var t := Step(s, ProcessJob(job, confirmations, commission), c);
    hide Processed;
    if t.db.fees != s.db.fees {
      assert t.db.fees[..|s.db.fees|] == s.db.fees;
    }
  }

  /** What an account gains from a step is what its payout stops holding and has not sent. */
  ghost predicate Moved(b: Balance, after: Balance, held: int, sent: int, excess: int) {
    && after.locked == b.locked + held - excess
    && after.available == b.available - held - sent + excess
  }

  /** One run and its payout change, and the balances move with what the payout holds and sends. */
  ghost predicate OneRunMoves(s: State, t: State, p: nat, a: Account, excess: int) {
    && |s.runs| == |s.db.payouts| && p < |s.runs| && p < |t.runs| && p < |t.db.payouts|
    && t.db.fees == s.db.fees
    && t.db.payouts == s.db.payouts[p := t.db.payouts[p]] && t.runs == s.runs[p := t.runs[p]]
    && Moved(BalanceOf(s.db.balances, a), BalanceOf(t.db.balances, a),
             HeldBy(t.db.payouts[p], t.runs[p], a) - HeldBy(s.db.payouts[p], s.runs[p], a),
             SentBy(t.db.payouts[p], a) - SentBy(s.db.payouts[p], a), excess)
  }

  lemma PrepareMoves(s: State, p: nat, coins: seq<Coin>, rate: nat, a: Account)
    requires RunsOk(s) && At(s, p, Idle)
    ensures OneRunMoves(s, PrepareStep(s, p, coins, rate), p, a, 0)
  {
    assert RunOk(s.db, s.chain, p, s.db.payouts[p], s.runs[p]);
    hide Cover;
  }

  lemma FinaliseMoves(s: State, p: nat, a: Account)
    requires RunsOk(s) && SpentRowsOk(s) && At(s, p, Accepted)
    ensures OneRunMoves(s, FinaliseStep(s, p), p, a, 0)
  {
    assert RunOk(s.db, s.chain, p, s.db.payouts[p], s.runs[p]);
    FinaliseEffect(s, p);
    hide FinaliseStep;
  }

  lemma RecordMoves(s: State, p: nat, a: Account)
    requires RunsOk(s) && At(s, p, Signed)
    ensures OneRunMoves(s, RecordStep(s, p), p, a, 0)
  {
    assert RunOk(s.db, s.chain, p, s.db.payouts[p], s.runs[p]);
  }

  lemma MarkFailedMoves(s: State, p: nat, c: Config, a: Account)
    requires RunsOk(s) && At(s, p, Failing)
    ensures OneRunMoves(s, Step(s, MarkFailed(p), c), p, a, Excess(s, MarkFailed(p), a))
  {
    assert RunOk(s.db, s.chain, p, s.db.payouts[p], s.runs[p]);
  }

  lemma PipelineMoves(s: State, e: Event, c: Config, a: Account)
    requires Valid(s, c) && !e.CreateInvoice? && !e.CreatePayout? && !e.ProcessJob?
    ensures Step(s, e, c) == s || OneRunMoves(s, Step(s, e, c), e.p, a, Excess(s, e, a))
    ensures Step(s, e, c) == s ==> Excess(s, e, a) == 0
  {
    hide PrepareStep, FinaliseStep, RecordStep, MarkedFailed, RunOk, QueryResult, Consume, Spendable, OneRunMoves;
    match e
    case Prepare(p, coins, rate) => if At(s, p, Idle) { PrepareMoves(s, p, coins, rate, a); }
    case Record(p) => if At(s, p, Signed) { RecordMoves(s, p, a); }
    case Finalise(p) => if At(s, p, Accepted) { FinaliseMoves(s, p, a); }
    case MarkFailed(p) => if At(s, p, Failing) { MarkFailedMoves(s, p, c, a); }
    case _ => StageMoves(s, e, c, a);
  }

  /** Signing, broadcasting and raising move nothing. */
  lemma StageMoves(s: State, e: Event, c: Config, a: Account)
    requires Valid(s, c) && (e.Build? || e.Broadcast? || e.Fail? || e.GiveUp?)
    ensures Step(s, e, c) == s || OneRunMoves(s, Step(s, e, c), e.p, a, 0)
  {
    hide QueryResult, Consume, Spendable;
  }

  lemma MovesGaps(s: State, e: Event, c: Config, a: Account)
    requires !e.CreateInvoice? && !e.CreatePayout? && !e.ProcessJob?
    requires OneRunMoves(s, Step(s, e, c), e.p, a, Excess(s, e, a))
    ensures
      var t := Step(s, e, c);
      && |t.runs| == |t.db.payouts|
      && LockGap(t, a) == LockGap(s, a) - Excess(s, e, a)
      && AvailableGap(t, a) == AvailableGap(s, a) + Excess(s, e, a)
  {
    var t := Step(s, e, c);
    hide Step, Excess;
    HeldUpdate(s.db.payouts, s.runs, e.p, t.db.payouts[e.p], t.runs[e.p], a);
    SentUpdate(s.db.payouts, e.p, t.db.payouts[e.p], a);
  }

  // ---------------------------------------------------------------------------
  // Exact balances
  // ---------------------------------------------------------------------------

  /** Locked is what payouts hold. */
  ghost predicate ExactLock(s: State, a: Account) {
    |s.runs| == |s.db.payouts| && LockGap(s, a) == 0
  }

  /** Available is what was credited, less what is held and what was sent: a FAILED payout is as if
      it had never been requested, and credits made meanwhile are kept. */
  ghost predicate ExactAvailable(s: State, a: Account) {
    |s.runs| == |s.db.payouts| && AvailableGap(s, a) == 0
  }

  /** The refund of a payout of the account that never froze anything, while something is locked. */
  predicate StealsLock(s: State, e: Event, a: Account) {
    Refunds(s, e, a) && !s.runs[e.p].holds && BalanceOf(s.db.balances, a).locked > 0
  }

  /** While locked is exact, a refund has an excess exactly when it takes from what other payouts hold. */
  lemma ExcessIsTheft(s: State, e: Event, c: Config, a: Account)
    requires Valid(s, c) && ExactLock(s, a)
    ensures Excess(s, e, a) != 0 <==> StealsLock(s, e, a)
  {
    if Refunds(s, e, a) {
      assert RunOk(s.db, s.chain, e.p, s.db.payouts[e.p], s.runs[e.p]);
      HeldAtLeast(s.db.payouts, s.runs, e.p, a);
    }
  }

  /** Exactly when the locked amount of an account stays exact, whatever happens to other accounts: an event
      keeps "locked equals what payouts hold" if and only if it is not the refund of a payout of this
      account that held nothing while something is locked. */
  lemma ExactLockStep(s: State, e: Event, c: Config, a: Account)
    requires Valid(s, c) && ExactLock(s, a)
    ensures ExactLock(Step(s, e, c), a) <==> !StealsLock(s, e, a)
  {
    FundsStep(s, e, c, a);
    ExcessIsTheft(s, e, c, a);
  }

  lemma ExactStep(s: State, e: Event, c: Config, a: Account)
    requires Valid(s, c) && ExactLock(s, a) && ExactAvailable(s, a)
    ensures ExactAvailable(Step(s, e, c), a) <==> !StealsLock(s, e, a)
  {
    FundsStep(s, e, c, a);
    ExcessIsTheft(s, e, c, a);
  }

  /** What refunds of a run have moved from locked to available beyond what their payouts held. */
  ghost function Misrefunded(events: seq<Event>, c: Config, a: Account): int {
    if events == [] then 0 else
    var n := |events| - 1;
    Misrefunded(events[..n], c, a) + Excess(Execute(INITIAL, events[..n], c), events[n], a)
  }

  /** Both balances of every account after every interleaving: locked is what payouts hold, available what
      was credited less what was sent and is held, up to what was refunded wrongly. */
  lemma {:induction false} FundsExactly(events: seq<Event>, c: Config, a: Account)
    ensures
      var s := Execute(INITIAL, events, c);
      var b := BalanceOf(s.db.balances, a);
      && |s.runs| == |s.db.payouts|
      && b.locked == Held(s.db.payouts, s.runs, a) - Misrefunded(events, c, a)
      && b.available == NetTotal(s.db.fees, a) - Sent(s.db.payouts, a) - Held(s.db.payouts, s.runs, a)
                        + Misrefunded(events, c, a)
  {
    if events != [] {
      var n := |events| - 1;
      FundsExactly(events[..n], c, a);
      ReachableValid(events[..n], c);
      FundsStep(Execute(INITIAL, events[..n], c), events[n], c, a);
      hide Step, Excess, Held, Sent, NetTotal;
    }
  }

  // ---------------------------------------------------------------------------
  // Balances below zero
  // ---------------------------------------------------------------------------

  ghost predicate NonNegative(s: State, a: Account) {
    BalanceOf(s.db.balances, a).available >= 0 && BalanceOf(s.db.balances, a).locked >= 0
  }

  /** A payout of the account is settled while less than its amount is locked. */
  predicate Overdraws(s: State, e: Event, a: Account) {
    && e.Finalise? && At(s, e.p, Accepted) && e.p < |s.db.payouts| && s.db.payouts[e.p].account == a
    && BalanceOf(s.db.balances, a).locked < s.db.payouts[e.p].amount
  }

  /** No credit of the account takes a commission above one hundred percent. */
  predicate Fair(s: State, e: Event, a: Account) {
    e.ProcessJob? && e.job.invoice < |s.db.invoices| && s.db.invoices[e.job.invoice].account == a ==>
      e.commission <= 10_000
  }

  /** Exactly when a balance goes below zero. */
  lemma NonNegativeStep(s: State, e: Event, c: Config, a: Account)
    requires Valid(s, c) && NonNegative(s, a) && Fair(s, e, a)
    ensures NonNegative(Step(s, e, c), a) <==> !Overdraws(s, e, a)
  {
    match e
    case ProcessJob(job, confirmations, commission) =>
      CreditNotNegative(s, job, confirmations, commission, c, a);
    case Finalise(p) =>
      if At(s, p, Accepted) {
        FinaliseEffect(s, p);
        hide FinaliseStep;
      }
    case _ =>
  }

  lemma CreditNotNegative(s: State, job: Job, confirmations: int, commission: nat, c: Config, a: Account)
    requires Valid(s, c) && NonNegative(s, a) && Fair(s, ProcessJob(job, confirmations, commission), a)
    ensures NonNegative(Step(s, ProcessJob(job, confirmations, commission), c), a)
  {
    CreditEntries(s.db, job, confirmations, c.required, commission);
    var t := Step(s, ProcessJob(job, confirmations, commission), c);
    hide Processed;
    if t.db.fees != s.db.fees {
      FeeAtMostGross(t.db.fees[|s.db.fees|].gross, commission);
    }
  }

  /** Every event of the run is fair to the account. */
  ghost predicate FairRun(events: seq<Event>, c: Config, a: Account) {
    events == [] ||
    (var n := |events| - 1;
     FairRun(events[..n], c, a) && Fair(Execute(INITIAL, events[..n], c), events[n], a))
  }

  /** Neither balance is negative after any part of the run. */
  ghost predicate NeverNegative(events: seq<Event>, c: Config, a: Account) {
    NonNegative(Execute(INITIAL, events, c), a) && (events == [] || NeverNegative(events[..|events| - 1], c, a))
  }

  /** No event of the run overdraws the account. */
  ghost predicate NeverOverdrawn(events: seq<Event>, c: Config, a: Account) {
    events == [] ||
    (var n := |events| - 1;
     NeverOverdrawn(events[..n], c, a) && !Overdraws(Execute(INITIAL, events[..n], c), events[n], a))
  }

  /** In every run, a balance of an account goes below zero exactly when one of its payouts is settled while
      less than its amount is locked. */
  lemma {:induction false} NegativeWhenOverdrawn(events: seq<Event>, c: Config, a: Account)
    requires FairRun(events, c, a)
    ensures NeverNegative(events, c, a) <==> NeverOverdrawn(events, c, a)
  {
    if events != [] {
      var n := |events| - 1;
      NegativeWhenOverdrawn(events[..n], c, a);
      ReachableValid(events[..n], c);
      if NeverNegative(events[..n], c, a) {
        NonNegativeStep(Execute(INITIAL, events[..n], c), events[n], c, a);
      }
      hide Step, NonNegative, Overdraws, Fair;
    }
  }

  // ---------------------------------------------------------------------------
  // Executions that do not overlap
  // ---------------------------------------------------------------------------

  predicate InProgress(r: Run) {
    !r.stage.Idle? && !r.stage.Finished?
  }

  /** No other payout of the same account is in progress; an abandoned one stays in progress. */
  ghost predicate Alone(s: State, p: nat) {
    && |s.runs| == |s.db.payouts| && p < |s.runs|
    && forall q :: 0 <= q < |s.runs| && q != p && s.db.payouts[q].account == s.db.payouts[p].account ==>
         !InProgress(s.runs[q])
  }

  /** A payout of the account starts only while no other one is in progress. */
  ghost predicate StartsAlone(s: State, e: Event, c: Config, a: Account) {
    (&& (e.Prepare? || e.Fail?) && At(s, e.p, Idle) && e.p < |s.db.payouts| && s.db.payouts[e.p].account == a
     && Step(s, e, c) != s) ==>
      Alone(s, e.p)
  }

  ghost predicate Solo(s: State, a: Account) {
    && |s.runs| == |s.db.payouts|
    && forall p :: 0 <= p < |s.runs| && s.db.payouts[p].account == a && InProgress(s.runs[p]) ==> Alone(s, p)
  }

  lemma SoloStep(s: State, e: Event, c: Config, a: Account)
    requires Valid(s, c) && Solo(s, a) && StartsAlone(s, e, c, a)
    ensures Solo(Step(s, e, c), a)
  {
    var t := Step(s, e, c);
    if e.CreateInvoice? || e.CreatePayout? || e.ProcessJob? {
      if e.ProcessJob? { CreditEntries(s.db, e.job, e.confirmations, c.required, e.commission); }
      hide Processed;
      forall p | 0 <= p < |t.runs| && t.db.payouts[p].account == a && InProgress(t.runs[p]) ensures Alone(t, p) {
        assert Alone(s, p);
      }
    } else if t != s {
      SameAccounts(s, e, c);
      hide Step, RunsOk, SpentRowsOk, Balanced, LedgerValid;
      forall p | 0 <= p < |t.runs| && t.db.payouts[p].account == a && InProgress(t.runs[p]) ensures Alone(t, p) {
        if p == e.p || InProgress(s.runs[p]) { assert Alone(s, p); }
      }
    }
  }

  /** In a state without overlap, what is held for an account is the amount of the one payout in progress. */
  lemma SoloHeld(s: State, p: nat)
    requires RunsOk(s) && Alone(s, p)
    ensures var a := s.db.payouts[p].account;
      Held(s.db.payouts, s.runs, a) == HeldBy(s.db.payouts[p], s.runs[p], a)
  {
    var a := s.db.payouts[p].account;
    forall q | 0 <= q < |s.runs| && q != p ensures HeldBy(s.db.payouts[q], s.runs[q], a) == 0 {
      assert RunOk(s.db, s.chain, q, s.db.payouts[q], s.runs[q]);
    }
    HeldByAtMostOne(s.db.payouts, s.runs, p, a);
  }

  lemma SoloNeverSteals(s: State, e: Event, a: Account)
    requires RunsOk(s) && Solo(s, a) && ExactLock(s, a)
    ensures !StealsLock(s, e, a)
  {
    if Refunds(s, e, a) {
      assert InProgress(s.runs[e.p]);
      SoloHeld(s, e.p);
    }
  }

  /** Executions of payouts of this account do not overlap; those of other accounts may. */
  ghost predicate Serial(events: seq<Event>, c: Config, a: Account) {
    events == [] ||
    (var n := |events| - 1;
     Serial(events[..n], c, a) && StartsAlone(Execute(INITIAL, events[..n], c), events[n], c, a))
  }

  lemma {:induction false} SerialInvariant(events: seq<Event>, c: Config, a: Account)
    requires Serial(events, c, a)
    ensures Solo(Execute(INITIAL, events, c), a) && Misrefunded(events, c, a) == 0
  {
    if events != [] {
      var n := |events| - 1;
      var before := Execute(INITIAL, events[..n], c);
      SerialInvariant(events[..n], c, a);
      ReachableValid(events[..n], c);
      FundsExactly(events[..n], c, a);
      SoloNeverSteals(before, events[n], a);
      ExcessIsTheft(before, events[n], c, a);
      SoloStep(before, events[n], c, a);
    }
  }

  /** When payout executions on one balance do not overlap, whatever happens on others: locked is the amount
      of the payout between freeze and resolution and otherwise zero, available is what was credited less
      what was sent and what is locked, and with fair commissions it is not negative. */
  lemma SerialPayouts(events: seq<Event>, c: Config, a: Account)
    requires Serial(events, c, a)
    ensures
      var s := Execute(INITIAL, events, c);
      var b := BalanceOf(s.db.balances, a);
      && |s.runs| == |s.db.payouts|
      && b.locked >= 0 && (FairRun(events, c, a) ==> b.available >= 0)
      && b.available == NetTotal(s.db.fees, a) - Sent(s.db.payouts, a) - b.locked
      && (forall p :: 0 <= p < |s.runs| && s.db.payouts[p].account == a && s.runs[p].holds ==>
            b.locked == s.db.payouts[p].amount)
      && ((forall p :: 0 <= p < |s.runs| && s.db.payouts[p].account == a ==> !s.runs[p].holds) ==> b.locked == 0)
  {
    SerialInvariant(events, c, a);
    FundsExactly(events, c, a);
    ReachableValid(events, c);
    SerialNeverOverdrawn(events, c, a);
    if FairRun(events, c, a) { NegativeWhenOverdrawn(events, c, a); }
    var s := Execute(INITIAL, events, c);
    hide MoneyFlow.Execute, Misrefunded, FairRun;
    HeldAtLeast(s.db.payouts, s.runs, |s.runs|, a);
    forall p | 0 <= p < |s.runs| && s.db.payouts[p].account == a && s.runs[p].holds
      ensures BalanceOf(s.db.balances, a).locked == s.db.payouts[p].amount
    {
      assert RunOk(s.db, s.chain, p, s.db.payouts[p], s.runs[p]);
      SoloHeld(s, p);
    }
    if forall p :: 0 <= p < |s.runs| && s.db.payouts[p].account == a ==> !s.runs[p].holds {
      HeldByAtMostOne(s.db.payouts, s.runs, |s.runs|, a);
    }
  }

  lemma {:induction false} SerialNeverOverdrawn(events: seq<Event>, c: Config, a: Account)
    requires Serial(events, c, a)
    ensures NeverOverdrawn(events, c, a)
  {
    if events != [] {
      var n := |events| - 1;
      SerialNeverOverdrawn(events[..n], c, a);
      SerialInvariant(events[..n], c, a);
      FundsExactly(events[..n], c, a);
      ReachableValid(events[..n], c);
      ExactNeverOverdraws(Execute(INITIAL, events[..n], c), events[n], c, a);
    }
  }

  lemma ExactNeverOverdraws(s: State, e: Event, c: Config, a: Account)
    requires Valid(s, c) && ExactLock(s, a)
    ensures !Overdraws(s, e, a)
  {
    if e.Finalise? && At(s, e.p, Accepted) && s.db.payouts[e.p].account == a {
      assert RunOk(s.db, s.chain, e.p, s.db.payouts[e.p], s.runs[e.p]);
      HeldAtLeast(s.db.payouts, s.runs, e.p, a);
    }
  }
}
