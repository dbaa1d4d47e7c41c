/** Credits and payouts interleaved: every database transaction, signing step and broadcast is one
    atomic event, chosen in any order and for any payout, and any step may fail. */
module MoneyFlow {
  import opened Store
  import opened Ledger
  import opened CoinSelection
  import opened PayoutBuilder
  import opened Payouts

  /** Where the single execution of a payout stands. */
  datatype Stage =
    | Idle        // requested, not yet prepared
    | Frozen      // `_prepare` has committed
    | Signed      // the transaction is built
    | Recorded    // PROCESSING has committed
    | Accepted    // the node has returned a txid
    | Failing     // an error was caught, `_mark_failed` comes next
    | Finished    // SENT or FAILED
    | Abandoned   // `_mark_failed` itself failed

  /** The local variables of an execution; `holds` says that its amount is frozen in the balance. */
  datatype Run = Run(stage: Stage, holds: bool, selected: seq<Coin>, rate: nat, fee: int, change: int)

  const FRESH: Run := Run(Idle, false, [], 0, 0, 0)

  /** The database, the outpoints consumed on the chain with the payout that consumed them, and
      one run for each payout. */
  datatype State = State(db: Db, chain: map<string, nat>, runs: seq<Run>)

  const INITIAL: State := State(EMPTY, map[], [])

  /** The settings; a fee rate comes from the node or from the settings and is never negative. */
  datatype Config = Config(required: int, defaultRate: nat, dust: int)

  datatype Event =
    | CreateInvoice(account: Account)
    | CreatePayout(owner: Account, amount: nat)
    | ProcessJob(job: Job, confirmations: int, commission: nat)
    | Prepare(p: nat, coins: seq<Coin>, rate: nat)
    | Build(p: nat)
    | Record(p: nat)
    | Broadcast(p: nat, accepted: bool, reported: bool)
    | Finalise(p: nat)
    | Fail(p: nat)
    | MarkFailed(p: nat)
    | GiveUp(p: nat)

  predicate At(s: State, p: nat, stage: Stage) {
    p < |s.runs| && s.runs[p].stage == stage
  }

  function Put(s: State, p: nat, r: Run): State
    requires p < |s.runs|
  {
    s.(runs := s.runs[p := r])
  }

  function Outpoint(db: Db, c: Coin): string {
    if c.id < |db.utxos| then db.utxos[c.id].txid else ""
  }

  /** The chain refuses a transaction that spends a spent outpoint. */
  predicate Spendable(s: State, coins: seq<Coin>) {
    Unconsumed(s.db, s.chain, coins)
  }

  predicate Unconsumed(db: Db, chain: map<string, nat>, coins: seq<Coin>) {
    forall i :: 0 <= i < |coins| ==> Outpoint(db, coins[i]) !in chain
  }

  function Consume(db: Db, chain: map<string, nat>, coins: seq<Coin>, p: nat): map<string, nat> {
    if coins == [] then chain else
    Consume(db, chain, coins[..|coins| - 1], p)[Outpoint(db, coins[|coins| - 1]) := p]
  }

  function PrepareStep(s: State, p: nat, coins: seq<Coin>, rate: nat): State
    requires p < |s.runs|
  {
    var r := s.runs[p];
    match Prepared(s.db, p, coins, rate)
    case None => Put(s, p, r.(stage := Failing))
    case Some((db, selected)) =>
      Put(s.(db := db), p, r.(stage := Frozen, holds := true, selected := selected, rate := rate))
  }

  function BuildStep(s: State, p: nat, c: Config): State
    requires p < |s.runs| && p < |s.db.payouts|
  {
    var r := s.runs[p];
    match Built(Total(r.selected), |r.selected|, s.db.payouts[p].amount, EffectiveRate(r.rate, c.defaultRate), c.dust)
    case Amounts(fee, _, change, _) => Put(s, p, r.(stage := Signed, fee := fee, change := change))
    case _ => Put(s, p, r.(stage := Failing))
  }

  function RecordStep(s: State, p: nat): State
    requires p < |s.runs| && p < |s.db.payouts|
  {
    var r := s.runs[p];
    match Persisted(s.db, p, r.fee, s.db.payouts[p].amount)
    case None => Put(s, p, r.(stage := Failing))
    case Some(db) => Put(s.(db := db), p, r.(stage := Recorded))
  }

  /** The node may accept a transaction and the call still fail. */
  function BroadcastStep(s: State, p: nat, accepted: bool, reported: bool): State
    requires p < |s.runs|
  {
    var r := s.runs[p];
    if accepted && Spendable(s, r.selected) then
      Put(s.(chain := Consume(s.db, s.chain, r.selected, p)), p, r.(stage := if reported then Accepted else Failing))
    else
      Put(s, p, r.(stage := Failing))
  }

  function FinaliseStep(s: State, p: nat): State
    requires p < |s.runs| && p < |s.db.payouts|
  {
    var r := s.runs[p];
    match Finalised(s.db, p, r.selected, r.fee, s.db.payouts[p].amount)
    case None => Put(s, p, r.(stage := Failing))
    case Some(db) => Put(s.(db := db), p, r.(stage := Finished, holds := false))
  }

  /** One event; an event that is not enabled changes nothing. */
  ghost function Step(s: State, e: Event, c: Config): State {
    match e
    case CreateInvoice(account) =>
      s.(db := s.db.(invoices := s.db.invoices + [Invoice(account, NEW)]))
    case CreatePayout(owner, amount) =>
      if amount == 0 then s else
      s.(db := s.db.(payouts := s.db.payouts + [Payout(owner, amount, PayoutStatus.PENDING, 0, 0)]),
         runs := s.runs + [FRESH])
    case ProcessJob(job, confirmations, commission) =>
      s.(db := Processed(s.db, job, confirmations, c.required, commission).0)
    case Prepare(p, coins, rate) =>
      if At(s, p, Idle) && p < |s.db.payouts| && QueryResult(s.db, s.db.payouts[p].account, coins)
      then PrepareStep(s, p, coins, rate) else s
    case Build(p) =>
      if At(s, p, Frozen) && p < |s.db.payouts| then BuildStep(s, p, c) else s
    case Record(p) =>
      if At(s, p, Signed) && p < |s.db.payouts| then RecordStep(s, p) else s
    case Broadcast(p, accepted, reported) =>
      if At(s, p, Stage.Recorded) then BroadcastStep(s, p, accepted, reported) else s
    case Finalise(p) =>
      if At(s, p, Accepted) && p < |s.db.payouts| then FinaliseStep(s, p) else s
    case Fail(p) =>
      if At(s, p, Idle) || At(s, p, Frozen) || At(s, p, Signed) || At(s, p, Accepted)
      then Put(s, p, s.runs[p].(stage := Failing)) else s
    case MarkFailed(p) =>
      if At(s, p, Failing)
      then Put(s.(db := MarkedFailed(s.db, p)), p, s.runs[p].(stage := Finished, holds := false)) else s
    case GiveUp(p) =>
      if At(s, p, Failing) then Put(s, p, s.runs[p].(stage := Abandoned)) else s
  }

  /** The state after a sequence of events. */
  ghost function Execute(s: State, events: seq<Event>, c: Config): State {
    if events == [] then s else Step(Execute(s, events[..|events| - 1], c), events[|events| - 1], c)
  }

  lemma After(s: State, events: seq<Event>, e: Event, c: Config)
    ensures Execute(s, events + [e], c) == Step(Execute(s, events, c), e, c)
  {
    assert (events + [e])[..|events|] == events;
  }
}
