/** `execute` and `_run`: one payout from request to its end, calling the steps in the order of the
    source, with the answers of the node and the failures as inputs. Its effect is that of a
    sequence of events of the interleaved model. */
module PayoutPipeline {
  import opened ByteStrings
  import opened CoinSelection
  import opened PayoutBuilder
  import opened Payouts
  import opened Store
  import opened MoneyFlow
  import opened MoneyInvariants

  /** What the world answers: the query and the fee rate, which steps raise, what the node does. */
  datatype World = World(coins: seq<Coin>, rate: nat, prepareRaises: bool, signingRaises: bool, recordRaises: bool,
                         accepted: bool, reported: bool, finaliseRaises: bool, markRaises: bool)

  /** An event of the execution of payout `p`. */
  predicate Concerns(e: Event, p: nat) {
    !e.CreateInvoice? && !e.CreatePayout? && !e.ProcessJob? && e.p == p
  }

  /** What `_prepare` selects. */
  function Selection(s: State, p: nat, world: World): seq<Coin> {
    match Prepared(s.db, p, world.coins, world.rate)
    case Some((_, selected)) => selected
    case None => []
  }

  /** The transaction can be built and nothing raises before it is sent. */
  predicate Sends(s: State, p: nat, world: World, c: Config)
    requires p < |s.db.payouts|
  {
    var selected := Selection(s, p, world);
    && !world.prepareRaises && Prepared(s.db, p, world.coins, world.rate).Some?
    && !world.signingRaises
    && Built(Total(selected), |selected|, s.db.payouts[p].amount,
             EffectiveRate(world.rate, c.defaultRate), c.dust).Amounts?
    && !world.recordRaises
  }

  /** The node takes the transaction. */
  predicate Takes(s: State, p: nat, world: World, c: Config)
    requires p < |s.db.payouts|
  {
    Sends(s, p, world, c) && world.accepted && Unconsumed(s.db, s.chain, Selection(s, p, world))
  }

  predicate Succeeds(s: State, p: nat, world: World, c: Config)
    requires p < |s.db.payouts|
  {
    Takes(s, p, world, c) && world.reported && !world.finaliseRaises
  }

  /** The chain when the execution ends. */
  function ChainAfter(s: State, p: nat, world: World, c: Config): map<string, nat>
    requires p < |s.db.payouts|
  {
    if Takes(s, p, world, c) then Consume(s.db, s.chain, Selection(s, p, world), p) else s.chain
  }

  class Pipeline {
    const processor: PayoutProcessor
    const config: Config

    constructor (processor: PayoutProcessor, config: Config)
      ensures this.processor == processor && this.config == config
    {
      this.processor, this.config := processor, config;
    }

    /** The events so far, all of payout `p`, lead to the state `t`, which the database shows and where run
        `p` stands at `stage`. */
    ghost predicate Follows(s: State, events: seq<Event>, t: State, p: nat, stage: Stage)
      reads processor.session
    {
      && Execute(s, events, config) == t && t.db == processor.session.View()
      && (forall i :: 0 <= i < |events| ==> Concerns(events[i], p))
      && At(t, p, stage) && p < |t.db.payouts|
    }

    method Freeze(p: nat, world: World, ghost s: State, ghost events: seq<Event>, ghost t: State)
      returns (selected: Option<seq<Coin>>, ghost more: seq<Event>, ghost u: State)
      requires Follows(s, events, t, p, Idle) && QueryResult(t.db, t.db.payouts[p].account, world.coins)
      modifies processor.session
      ensures Follows(s, more, u, p, if selected.Some? then Frozen else Failing) && u.chain == t.chain
      ensures selected.Some? <==> Prepared(t.db, p, world.coins, world.rate).Some?
      ensures selected.Some? ==>
                && selected.value == Selection(t, p, world)
                && u.runs[p].selected == selected.value && u.runs[p].rate == world.rate
                && u.db == t.db.(balances := u.db.balances) && t.db.payouts[p].account in u.db.balances
    {
      hide QueryResult, Cover;
      selected := processor.Prepare(p, world.coins, world.rate);
      var e := Event.Prepare(p, world.coins, world.rate);
      After(s, events, e, config);
      more, u := events + [e], Step(t, e, config);
    }

    method Sign(p: nat, selected: seq<Coin>, feeRate: nat, ghost s: State, ghost events: seq<Event>, ghost t: State)
      returns (signed: Amounts, ghost more: seq<Event>, ghost u: State)
      requires Follows(s, events, t, p, Frozen) && t.runs[p].selected == selected && t.runs[p].rate == feeRate
      ensures Follows(s, more, u, p, if signed.Amounts? then Signed else Failing)
      ensures u.chain == t.chain && u.db == t.db
      ensures signed.Amounts? <==>
                Built(Total(selected), |selected|, t.db.payouts[p].amount,
                      EffectiveRate(feeRate, config.defaultRate), config.dust).Amounts?
      ensures signed.Amounts? ==>
                u.runs[p].selected == selected && u.runs[p].fee == signed.fee && signed.out == u.db.payouts[p].amount
    {
      var amount := processor.session.payouts[p].amount;
      var rate := EffectiveRate(feeRate, config.defaultRate);
      signed := BuildAmounts(selected, amount, rate, config.dust);
      BuildsOneOutcome(Total(selected), |selected|, amount, rate, config.dust,
                       signed, Built(Total(selected), |selected|, amount, rate, config.dust));
      hide Built, Builds;
      After(s, events, Build(p), config);
      more, u := events + [Build(p)], Step(t, Build(p), config);
    }

    method Persist(p: nat, signed: Amounts, ghost s: State, ghost events: seq<Event>, ghost t: State)
      returns (ghost more: seq<Event>, ghost u: State)
      requires Follows(s, events, t, p, Signed) && signed.Amounts?
      requires t.runs[p].fee == signed.fee && t.db.payouts[p].amount == signed.out
      modifies processor.session
      ensures Follows(s, more, u, p, Stage.Recorded) && u.chain == t.chain
      ensures u.runs[p] == t.runs[p].(stage := Stage.Recorded) && u.db == t.db.(payouts := u.db.payouts)
      ensures u.db.payouts[p].amount == t.db.payouts[p].amount && u.db.payouts[p].account == t.db.payouts[p].account
    {
      hide Step, MoneyFlow.Execute;
      EnabledSteps(t, p, config);
      var ok := processor.Record(p, signed.fee, signed.out);
      After(s, events, Event.Record(p), config);
      more, u := events + [Event.Record(p)], Step(t, Event.Record(p), config);
    }

    /** The node's answer; it refuses spent outpoints. */
    method Send(p: nat, selected: seq<Coin>, world: World, chain: map<string, nat>,
                ghost s: State, ghost events: seq<Event>, ghost t: State)
      returns (ok: bool, after: map<string, nat>, ghost more: seq<Event>, ghost u: State)
      requires Follows(s, events, t, p, Stage.Recorded) && t.chain == chain && t.runs[p].selected == selected
      ensures Follows(s, more, u, p, if ok then Accepted else Failing) && u.chain == after
      ensures u.runs[p] == t.runs[p].(stage := u.runs[p].stage) && u.db == t.db
      ensures ok <==> world.accepted && Unconsumed(t.db, chain, selected) && world.reported
      ensures after == if world.accepted && Unconsumed(t.db, chain, selected)
                       then Consume(t.db, chain, selected, p) else chain
    {
      hide Step, MoneyFlow.Execute, Consume, Unconsumed;
      var db := processor.session.View();
      var taken := world.accepted && Unconsumed(db, chain, selected);
      ok := taken && world.reported;
      after := if taken then Consume(db, chain, selected, p) else chain;
      var e := Broadcast(p, world.accepted, world.reported);
      After(s, events, e, config);
      Answered(t, p, world.accepted, world.reported, config);
      more, u := events + [e], Step(t, e, config);
    }

    method Settle(p: nat, selected: seq<Coin>, signed: Amounts,
                  ghost s: State, ghost events: seq<Event>, ghost t: State)
      returns (ok: bool, ghost more: seq<Event>, ghost u: State)
      requires Follows(s, events, t, p, Accepted) && t.runs[p].selected == selected
      requires signed.Amounts? && t.runs[p].fee == signed.fee && t.db.payouts[p].amount == signed.out
      modifies processor.session
      ensures Follows(s, more, u, p, if ok then Finished else Failing) && u.chain == t.chain
      ensures ok <==> MarkedSpent(t.db.utxos, selected, p).Some? && t.db.payouts[p].account in t.db.balances
      ensures ok ==> u.db.payouts[p].status.SENT?
    {
      hide Step, MoneyFlow.Execute, MarkedSpent;
      EnabledSteps(t, p, config);
      ok := processor.Finalise(p, selected, signed.fee, signed.out);
      After(s, events, Event.Finalise(p), config);
      more, u := events + [Event.Finalise(p)], Step(t, Event.Finalise(p), config);
    }

    /** An exception between the steps. */
    ghost method Raise(p: nat, s: State, events: seq<Event>, t: State, stage: Stage)
      returns (more: seq<Event>, u: State)
      requires Follows(s, events, t, p, stage)
      requires stage.Idle? || stage.Frozen? || stage.Signed? || stage.Accepted?
      ensures Follows(s, more, u, p, Failing) && u.chain == t.chain
    {
      After(s, events, Fail(p), config);
      more, u := events + [Fail(p)], Step(t, Fail(p), config);
    }

    /** `_run`, with a result that says whether an error was raised. `s` is the state in which the
        execution of payout `p` starts, and `u` the one it reaches by `events`. */
    method Run(p: nat, world: World, chain: map<string, nat>, ghost s: State)
      returns (raised: bool, after: map<string, nat>, ghost events: seq<Event>, ghost u: State)
      requires Follows(s, [], s, p, Idle) && s.chain == chain && p < |s.db.payouts|
      requires QueryResult(s.db, s.db.payouts[p].account, world.coins)
      modifies processor.session
      ensures Follows(s, events, u, p, if raised then Failing else Finished) && u.chain == after
      ensures raised <==> !Succeeds(s, p, world, config)
      ensures after == ChainAfter(s, p, world, config)
      ensures !raised ==> u.db.payouts[p].status.SENT?
    {
      hide Step, MoneyFlow.Execute, QueryResult, Prepared, Built, MarkedSpent, Consume, Selection, Unconsumed, Follows;
      raised, after, events, u := true, chain, [], s;
      SelectionCanBeMarked(s, p, world);
      if world.prepareRaises {
        events, u := Raise(p, s, events, u, Idle);
        return;
      }
      var selected;
      selected, events, u := Freeze(p, world, s, events, u);
      if selected.None? {
        return;
      }
      if world.signingRaises {
        events, u := Raise(p, s, events, u, Frozen);
        return;
      }
      var signed;
      signed, events, u := Sign(p, selected.value, world.rate, s, events, u);
      if !signed.Amounts? {
        return;
      }
      if world.recordRaises {
        events, u := Raise(p, s, events, u, Signed);
        return;
      }
      events, u := Persist(p, signed, s, events, u);
      UnconsumedSame(s.db, u.db, chain, selected.value, p);
      raised, after, events, u := SendAndSettle(p, selected.value, signed, world, chain, s, events, u);
    }

    /** The end of `_run`, from the broadcast on. */
    method SendAndSettle(p: nat, selected: seq<Coin>, signed: Amounts, world: World, chain: map<string, nat>,
                         ghost s: State, ghost events: seq<Event>, ghost t: State)
      returns (raised: bool, after: map<string, nat>, ghost more: seq<Event>, ghost u: State)
      requires Follows(s, events, t, p, Stage.Recorded) && t.chain == chain && t.runs[p].selected == selected
      requires signed.Amounts? && t.runs[p].fee == signed.fee && t.db.payouts[p].amount == signed.out
      requires MarkedSpent(t.db.utxos, selected, p).Some? && t.db.payouts[p].account in t.db.balances
      modifies processor.session
      ensures Follows(s, more, u, p, if raised then Failing else Finished) && u.chain == after
      ensures !raised <==>
                world.accepted && Unconsumed(t.db, chain, selected) && world.reported && !world.finaliseRaises
      ensures after == if world.accepted && Unconsumed(t.db, chain, selected)
                       then Consume(t.db, chain, selected, p) else chain
      ensures !raised ==> u.db.payouts[p].status.SENT?
    {
      hide Step, MoneyFlow.Execute, MarkedSpent, Consume, Unconsumed;
      raised := true;
      var sent;
      sent, after, more, u := Send(p, selected, world, chain, s, events, t);
      if !sent {
        return;
      }
      if world.finaliseRaises {
        more, u := Raise(p, s, more, u, Accepted);
        return;
      }
      var settled;
      settled, more, u := Settle(p, selected, signed, s, more, u);
      raised := !settled;
    }

    /** `execute`: every error leads to `_mark_failed`, whose own error is swallowed. The payout ends SENT
        exactly when no step fails; otherwise it ends FAILED, unless marking it fails as well. */
    method ExecutePayout(p: nat, world: World, chain: map<string, nat>, ghost s: State)
      returns (after: map<string, nat>, ghost events: seq<Event>, ghost u: State)
      requires Follows(s, [], s, p, Idle) && s.chain == chain && p < |s.db.payouts|
      requires QueryResult(s.db, s.db.payouts[p].account, world.coins)
      modifies processor.session
      ensures Follows(s, events, u, p,
                      if Succeeds(s, p, world, config) || !world.markRaises then Finished else Abandoned)
      ensures u.chain == after == ChainAfter(s, p, world, config)
      ensures Succeeds(s, p, world, config) ==> u.db.payouts[p].status.SENT?
      ensures !Succeeds(s, p, world, config) && !world.markRaises ==> u.db.payouts[p].status.FAILED?
    {
      hide QueryResult, Succeeds, ChainAfter, MoneyFlow.Execute;
      var raised;
      raised, after, events, u := Run(p, world, chain, s);
      if raised {
        ghost var e := if world.markRaises then GiveUp(p) else Event.MarkFailed(p);
        if !world.markRaises {
          processor.MarkFailed(p);
        }
        After(s, events, e, config);
        events, u := events + [e], Step(u, e, config);
      }
    }
  }

  lemma EnabledSteps(t: State, p: nat, c: Config)
    requires p < |t.db.payouts|
    ensures At(t, p, Signed) ==> Step(t, Event.Record(p), c) == RecordStep(t, p)
    ensures At(t, p, Accepted) ==> Step(t, Event.Finalise(p), c) == FinaliseStep(t, p)
  {
  }

  lemma Answered(t: State, p: nat, accepted: bool, reported: bool, c: Config)
    requires At(t, p, Stage.Recorded)
    ensures
      var r := t.runs[p];
      var taken := accepted && Unconsumed(t.db, t.chain, r.selected);
      Step(t, Broadcast(p, accepted, reported), c)
      == Put(t.(chain := if taken then Consume(t.db, t.chain, r.selected, p) else t.chain), p,
             r.(stage := if taken && reported then Accepted else Failing))
  {
    hide Consume, Unconsumed;
  }

  /** The rows of the selected coins exist. */
  lemma SelectionCanBeMarked(s: State, p: nat, world: World)
    requires p < |s.db.payouts| && QueryResult(s.db, s.db.payouts[p].account, world.coins)
    ensures MarkedSpent(s.db.utxos, Selection(s, p, world), p).Some?
  {
    if Prepared(s.db, p, world.coins, world.rate).Some? {
      var y := s.db.payouts[p];
      CoverIsSelection(s.db, y.account, world.coins, y.amount + RoughFee(world.rate));
      MarkedRows(s.db.utxos, Selection(s, p, world), p);
    }
  }

  /** The outpoints of coins depend on their rows only. */
  lemma UnconsumedSame(db: Db, after: Db, chain: map<string, nat>, coins: seq<Coin>, p: nat)
    requires after.utxos == db.utxos
    ensures Unconsumed(after, chain, coins) == Unconsumed(db, chain, coins)
    ensures Consume(after, chain, coins, p) == Consume(db, chain, coins, p)
  {
    ConsumeSame(db, after, chain, coins, p);
  }

  lemma {:induction false} ConsumeSame(db: Db, after: Db, chain: map<string, nat>, coins: seq<Coin>, p: nat)
    requires after.utxos == db.utxos
    ensures Consume(after, chain, coins, p) == Consume(db, chain, coins, p)
  {
    if coins != [] {
      ConsumeSame(db, after, chain, coins[..|coins| - 1], p);
    }
  }
}
