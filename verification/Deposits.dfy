/** From jobs to books: which amount an invoice is credited with, and which status it has, in terms of the
    jobs that were processed. */
module Deposits {
  import opened ByteStrings
  import opened Store
  import opened Ledger
  import opened Crediting
  import opened MoneyFlow
  import opened MoneyInvariants
  import opened MoneyTheorems

  // ---------------------------------------------------------------------------
  // One database transaction
  // ---------------------------------------------------------------------------

  predicate IsFor(t: Transaction, txid: string, invoice: nat) {
    t.txid == txid && t.invoice == invoice
  }

  /** A database transaction keeps key and received amount of every row; the one row it may add is the job's,
      with the amount of the job; and a committed job leaves its confirmations and retries in its row. */
  lemma RowsKept(db: Db, job: Job, confirmations: int, required: int, commission: nat)
    requires LedgerValid(db, required)
    ensures
      var (after, outcome) := Processed(db, job, confirmations, required, commission);
      var rows := after.transactions;
      && |db.transactions| <= |rows| <= |db.transactions| + 1
      && (forall t :: 0 <= t < |db.transactions| ==>
            && IsFor(rows[t], db.transactions[t].txid, db.transactions[t].invoice)
            && rows[t].received == db.transactions[t].received)
      && (forall t :: |db.transactions| <= t < |rows| ==>
            IsFor(rows[t], job.txid, job.invoice) && rows[t].received == job.amount)
      && (outcome == Waiting || outcome == NowPaid ==>
            exists t :: 0 <= t < |rows| && IsFor(rows[t], job.txid, job.invoice)
                        && rows[t].confirmations == confirmations && rows[t].retryCount == job.retryCount)
      && (outcome != Waiting && outcome != NowPaid ==> rows == db.transactions)
  {
    var (after, outcome) := Processed(db, job, confirmations, required, commission);
    ProcessingKeepsValid(db, job, confirmations, required, commission);
    if job.invoice < |db.invoices| && db.invoices[job.invoice].status != PAID {
      UpsertKeeps(db, job, confirmations);
      var (rows, t) := Upserted(db.transactions, job, confirmations).value;
      if outcome == Waiting || outcome == NowPaid {
        assert IsFor(after.transactions[t], job.txid, job.invoice)
               && after.transactions[t].confirmations == confirmations
               && after.transactions[t].retryCount == job.retryCount;
      }
    }
  }

  /** What a database transaction does to the status of every invoice. */
  lemma StatusAfter(db: Db, job: Job, confirmations: int, required: int, commission: nat, i: nat)
    requires LedgerValid(db, required) && i < |db.invoices|
    ensures
      var (after, outcome) := Processed(db, job, confirmations, required, commission);
      && |after.invoices| == |db.invoices|
      && after.invoices[i].status
         == (if i == job.invoice && outcome == NowPaid then PAID
             else if i == job.invoice && outcome == Waiting && db.invoices[i].status == NEW then InvoiceStatus.PENDING
             else db.invoices[i].status)
  {
    if job.invoice < |db.invoices| && db.invoices[job.invoice].status != PAID {
      UpsertKeeps(db, job, confirmations);
    }
  }

  // ---------------------------------------------------------------------------
  // The status of an invoice
  // ---------------------------------------------------------------------------

  /** The event processes a job of an existing invoice. */
  predicate Handles(s: State, e: Event, i: nat) {
    e.ProcessJob? && e.job.invoice == i && i < |s.db.invoices|
  }

  /** Some job of the invoice was answered with too few confirmations. */
  ghost predicate Waited(events: seq<Event>, c: Config, i: nat) {
    events != [] &&
    (var n := |events| - 1;
     || Waited(events[..n], c, i)
     || (Handles(Execute(INITIAL, events[..n], c), events[n], i) && events[n].confirmations < c.required))
  }

  /** Some job of the invoice was answered with enough confirmations, and its outpoint was not registered. */
  ghost predicate Covered(events: seq<Event>, c: Config, i: nat) {
    events != [] &&
    (var n := |events| - 1;
     var s := Execute(INITIAL, events[..n], c);
     || Covered(events[..n], c, i)
     || (&& Handles(s, events[n], i) && events[n].confirmations >= c.required
         && !HasOutpoint(s.db.utxos, events[n].job.txid)))
  }

  /** In every run: an invoice is PAID once a job of it had enough confirmations and a fresh outpoint; before
      that it is PENDING once a job of it had too few, and NEW otherwise. */
  lemma {:induction false} StatusFromAnswers(events: seq<Event>, c: Config, i: nat)
    ensures
      var s := Execute(INITIAL, events, c);
      if i < |s.db.invoices| then
        s.db.invoices[i].status
        == (if Covered(events, c, i) then PAID else if Waited(events, c, i) then InvoiceStatus.PENDING else NEW)
      else
        !Covered(events, c, i) && !Waited(events, c, i)
  {
    if events != [] {
      var n := |events| - 1;
      var s, e := Execute(INITIAL, events[..n], c), events[n];
      StatusFromAnswers(events[..n], c, i);
      ReachableValid(events[..n], c);
      if e.ProcessJob? && i < |s.db.invoices| {
        StatusAfter(s.db, e.job, e.confirmations, c.required, e.commission, i);
        OutcomeWhen(s.db, e.job, e.confirmations, c.required, e.commission);
        hide Processed;
      } else {
        InvoicesKept(s, e, c);
      }
    }
  }

  /** Only jobs change an invoice. */
  lemma InvoicesKept(s: State, e: Event, c: Config)
    requires Valid(s, c)
    ensures
      var t := Step(s, e, c);
      && |s.db.invoices| <= |t.db.invoices|
      && (!e.ProcessJob? ==> t.db.invoices[..|s.db.invoices|] == s.db.invoices)
      && (e.ProcessJob? ==> |t.db.invoices| == |s.db.invoices|)
      && (forall i :: |s.db.invoices| <= i < |t.db.invoices| ==> t.db.invoices[i].status == NEW)
  {
    if e.ProcessJob? {
      CreditEntries(s.db, e.job, e.confirmations, c.required, e.commission);
      assert |Owners(Step(s, e, c).db.invoices)| == |Owners(s.db.invoices)|;
      hide Processed;
    } else if e.Finalise? && At(s, e.p, Accepted) {
      FinaliseEffect(s, e.p);
      hide FinaliseStep;
    }
  }

  // ---------------------------------------------------------------------------
  // The amount of a credit
  // ---------------------------------------------------------------------------

  /** The first job that was processed with this txid for this invoice, once the invoice existed. */
  ghost function FirstJob(events: seq<Event>, c: Config, txid: string, i: nat): Option<Job> {
    if events == [] then None else
    var n := |events| - 1;
    match FirstJob(events[..n], c, txid, i)
    case Some(job) => Some(job)
    case None =>
      if Handles(Execute(INITIAL, events[..n], c), events[n], i) && events[n].job.txid == txid
      then Some(events[n].job) else None
  }

  /** The log belongs to a row, records what was received there, the fee rounded down, and the rest. */
  ghost predicate LogFits(db: Db, l: FeeLog) {
    && l.transaction < |db.transactions| && db.transactions[l.transaction].invoice < |db.invoices|
    && l.gross == db.transactions[l.transaction].received
    && l.account == db.invoices[db.transactions[l.transaction].invoice].account
    && l.fee * 10_000 <= l.gross * l.commission < (l.fee + 1) * 10_000
    && l.net == l.gross - l.fee
  }

  /** The log credits the registered output. */
  ghost predicate Credits(db: Db, l: FeeLog, u: Utxo) {
    && LogFits(db, l) && IsFor(db.transactions[l.transaction], u.txid, u.invoice) && l.gross == u.amount
  }

  ghost predicate Logged(db: Db, u: nat)
    requires u < |db.utxos|
  {
    exists l :: 0 <= l < |db.fees| && Credits(db, db.fees[l], db.utxos[u])
  }

  ghost predicate AllLogged(db: Db) {
    && (forall u :: 0 <= u < |db.utxos| ==> Logged(db, u))
    && (forall l :: 0 <= l < |db.fees| ==> LogFits(db, db.fees[l]))
  }

  /** Rows, logs and outputs keep what a credit records; accounts of invoices stay. */
  ghost predicate RecordsKept(db: Db, after: Db) {
    && Owners(db.invoices) <= Owners(after.invoices)
    && |db.transactions| <= |after.transactions| && db.fees <= after.fees && |db.utxos| <= |after.utxos|
    && (forall t :: 0 <= t < |db.transactions| ==>
          && IsFor(after.transactions[t], db.transactions[t].txid, db.transactions[t].invoice)
          && after.transactions[t].received == db.transactions[t].received)
    && (forall u :: 0 <= u < |db.utxos| ==>
          && after.utxos[u].txid == db.utxos[u].txid && after.utxos[u].invoice == db.utxos[u].invoice
          && after.utxos[u].amount == db.utxos[u].amount)
  }

  lemma LogFitsStill(db: Db, after: Db, l: FeeLog)
    requires RecordsKept(db, after) && LogFits(db, l)
    ensures LogFits(after, l)
  {
    var i := db.transactions[l.transaction].invoice;
    assert Owners(after.invoices)[i] == Owners(db.invoices)[i];
  }

  lemma LoggedStill(db: Db, after: Db, u: nat)
    requires RecordsKept(db, after) && u < |db.utxos| && Logged(db, u)
    ensures Logged(after, u)
  {
    var l :| 0 <= l < |db.fees| && Credits(db, db.fees[l], db.utxos[u]);
    LogFitsStill(db, after, db.fees[l]);
    assert after.fees[l] == db.fees[l];
    hide LogFits;
    assert Credits(after, after.fees[l], after.utxos[u]);
  }

  lemma JobKeepsRecords(s: State, e: Event, c: Config)
    requires Valid(s, c) && e.ProcessJob?
    ensures RecordsKept(s.db, Step(s, e, c).db)
  {
    RowsKept(s.db, e.job, e.confirmations, c.required, e.commission);
    CreditEntries(s.db, e.job, e.confirmations, c.required, e.commission);
    hide Processed;
  }

  lemma OthersKeepRecords(s: State, e: Event, c: Config)
    requires Valid(s, c) && !e.ProcessJob?
    ensures RecordsKept(s.db, Step(s, e, c).db)
    ensures
      var t := Step(s, e, c);
      t.db.transactions == s.db.transactions && t.db.fees == s.db.fees && |t.db.utxos| == |s.db.utxos|
  {
    StepGrows(s, e, c);
    TablesUntouched(s, e, c);
    hide Step;
  }

  lemma TablesUntouched(s: State, e: Event, c: Config)
    requires Valid(s, c) && !e.ProcessJob?
    ensures
      var t := Step(s, e, c);
      t.db.transactions == s.db.transactions && t.db.fees == s.db.fees && |t.db.utxos| == |s.db.utxos|
  {
    if e.Finalise? && At(s, e.p, Accepted) {
      FinaliseEffect(s, e.p);
      AcceptedCoinsUnspent(s, e.p);
      MarkedRows(s.db.utxos, s.runs[e.p].selected, e.p);
      hide FinaliseStep;
    }
  }

  /** A credit logs what its row has received, and registers an output of the same amount. */
  lemma NewCredit(s: State, e: Event, c: Config)
    requires Valid(s, c) && e.ProcessJob?
    ensures
      var db, after := s.db, Step(s, e, c).db;
      || (after.utxos == db.utxos && after.fees == db.fees)
      || (&& |after.utxos| == |db.utxos| + 1 && |after.fees| == |db.fees| + 1
          && Credits(after, after.fees[|db.fees|], after.utxos[|db.utxos|])
          && after.utxos[|db.utxos|].txid == e.job.txid && after.utxos[|db.utxos|].invoice == e.job.invoice)
  {
    var (after, outcome) := Processed(s.db, e.job, e.confirmations, c.required, e.commission);
    CreditEntries(s.db, e.job, e.confirmations, c.required, e.commission);
    if outcome == NowPaid {
      UpsertKeeps(s.db, e.job, e.confirmations);
      var (rows, t) := Upserted(s.db.transactions, e.job, e.confirmations).value;
      CreditedRow(s.db, e.job, e.confirmations, c.required, e.commission);
      hide Processed, Upserted;
      FeeRoundsDown(rows[t].received, e.commission);
      assert Owners(after.invoices)[e.job.invoice] == Owners(s.db.invoices)[e.job.invoice];
    }
  }

  lemma FeeRoundsDown(gross: nat, commission: nat)
    ensures Fee(gross, commission) * 10_000 <= gross * commission < (Fee(gross, commission) + 1) * 10_000
  {
  }

  /** The credited row is the upserted one. */
  lemma CreditedRow(db: Db, job: Job, confirmations: int, required: int, commission: nat)
    requires LedgerValid(db, required) && Processed(db, job, confirmations, required, commission).1 == NowPaid
    ensures Upserted(db.transactions, job, confirmations).Some?
    ensures
      var after := Processed(db, job, confirmations, required, commission).0;
      var (rows, t) := Upserted(db.transactions, job, confirmations).value;
      && t < |rows| == |after.transactions|
      && IsFor(after.transactions[t], job.txid, job.invoice) && after.transactions[t].received == rows[t].received
  {
    UpsertKeeps(db, job, confirmations);
  }

  lemma LoggedStep(s: State, e: Event, c: Config)
    requires Valid(s, c) && AllLogged(s.db)
    ensures AllLogged(Step(s, e, c).db)
  {
    var db, after := s.db, Step(s, e, c).db;
    if e.ProcessJob? {
      JobKeepsRecords(s, e, c);
      NewCredit(s, e, c);
    } else {
      OthersKeepRecords(s, e, c);
    }
    hide Step;
    forall l | 0 <= l < |after.fees| ensures LogFits(after, after.fees[l]) {
      if l < |db.fees| { LogFitsStill(db, after, db.fees[l]); }
    }
    hide LogFits;
    forall u | 0 <= u < |after.utxos| ensures Logged(after, u) {
      if u < |db.utxos| { LoggedStill(db, after, u); }
    }
  }

  /** No output of this key is registered, and none will be: the invoice is PAID or the outpoint taken. */
  ghost predicate Barred(db: Db, txid: string, i: nat) {
    && (forall u :: 0 <= u < |db.utxos| ==> db.utxos[u].txid != txid || db.utxos[u].invoice != i)
    && i < |db.invoices| && (db.invoices[i].status == PAID || HasOutpoint(db.utxos, txid))
  }

  /** A row of the key has received this amount. */
  ghost predicate HasRow(db: Db, txid: string, i: nat, amount: nat) {
    exists t :: 0 <= t < |db.transactions|
                && IsFor(db.transactions[t], txid, i) && db.transactions[t].received == amount
  }

  /** Before the first job of the key there is no row of it; afterwards its row has received the amount of
      that job, unless the key can never be credited. */
  ghost predicate RowIsFromFirst(db: Db, first: Option<Job>, txid: string, i: nat) {
    match first
    case None => forall t :: 0 <= t < |db.transactions| ==> !IsFor(db.transactions[t], txid, i)
    case Some(job) => HasRow(db, txid, i, job.amount) || Barred(db, txid, i)
  }

  lemma HasRowStill(db: Db, after: Db, txid: string, i: nat, amount: nat)
    requires RecordsKept(db, after) && HasRow(db, txid, i, amount)
    ensures HasRow(after, txid, i, amount)
  {
    var t :| 0 <= t < |db.transactions| && IsFor(db.transactions[t], txid, i) && db.transactions[t].received == amount;
    assert IsFor(after.transactions[t], txid, i) && after.transactions[t].received == amount;
  }

  lemma BarredStill(s: State, e: Event, c: Config, txid: string, i: nat)
    requires Valid(s, c) && Barred(s.db, txid, i)
    ensures Barred(Step(s, e, c).db, txid, i)
  {
    var db, after := s.db, Step(s, e, c).db;
    if db.invoices[i].status == PAID { StepKeepsPaid(s, e, c, i); }
    InvoicesKept(s, e, c);
    if e.ProcessJob? {
      JobKeepsRecords(s, e, c);
      CreditEntries(db, e.job, e.confirmations, c.required, e.commission);
      OutcomeWhen(db, e.job, e.confirmations, c.required, e.commission);
      hide Processed;
    } else {
      OthersKeepRecords(s, e, c);
    }
    hide Step;
    if HasOutpoint(db.utxos, txid) {
      var u :| 0 <= u < |db.utxos| && db.utxos[u].txid == txid;
      assert after.utxos[u].txid == txid;
    }
  }

  /** What a job finds that is the first of its key. */
  lemma FirstIsRecorded(s: State, e: Event, c: Config)
    requires Valid(s, c) && AllLogged(s.db) && e.ProcessJob? && e.job.invoice < |s.db.invoices|
    requires RowIsFromFirst(s.db, None, e.job.txid, e.job.invoice)
    ensures RowIsFromFirst(Step(s, e, c).db, Some(e.job), e.job.txid, e.job.invoice)
  {
    var db, after := s.db, Step(s, e, c).db;
    var outcome := Processed(db, e.job, e.confirmations, c.required, e.commission).1;
    RowsKept(db, e.job, e.confirmations, c.required, e.commission);
    OutcomeWhen(db, e.job, e.confirmations, c.required, e.commission);
    ProcessingKeepsValid(db, e.job, e.confirmations, c.required, e.commission);
    NoOutputWithoutRow(db, e.job.txid, e.job.invoice);
    if outcome == Waiting || outcome == NowPaid {
      hide Processed;
      var t :| 0 <= t < |after.transactions| && IsFor(after.transactions[t], e.job.txid, e.job.invoice);
      assert t >= |db.transactions|;
      assert HasRow(after, e.job.txid, e.job.invoice, e.job.amount);
    } else {
      assert after == db;
    }
  }

  lemma NoOutputWithoutRow(db: Db, txid: string, i: nat)
    requires AllLogged(db) && RowIsFromFirst(db, None, txid, i)
    ensures forall u :: 0 <= u < |db.utxos| ==> db.utxos[u].txid != txid || db.utxos[u].invoice != i
  {
    forall u | 0 <= u < |db.utxos| ensures db.utxos[u].txid != txid || db.utxos[u].invoice != i {
      assert Logged(db, u);
    }
  }

  lemma FirstStep(s: State, e: Event, c: Config, first: Option<Job>, next: Option<Job>, txid: string, i: nat)
    requires Valid(s, c) && AllLogged(s.db) && RowIsFromFirst(s.db, first, txid, i)
    requires next == if first.Some? then first
                     else if Handles(s, e, i) && e.job.txid == txid then Some(e.job) else None
    ensures RowIsFromFirst(Step(s, e, c).db, next, txid, i)
  {
    var db, after := s.db, Step(s, e, c).db;
    if first.Some? {
      if HasRow(db, txid, i, first.value.amount) {
        if e.ProcessJob? { JobKeepsRecords(s, e, c); } else { OthersKeepRecords(s, e, c); }
        HasRowStill(db, after, txid, i, first.value.amount);
      } else {
        BarredStill(s, e, c, txid, i);
      }
    } else if next.Some? {
      FirstIsRecorded(s, e, c);
    } else if e.ProcessJob? {
      RowsKept(db, e.job, e.confirmations, c.required, e.commission);
      OutcomeWhen(db, e.job, e.confirmations, c.required, e.commission);
      hide Processed;
    } else {
      OthersKeepRecords(s, e, c);
    }
  }

  lemma {:induction false} RowsFromFirstJobs(events: seq<Event>, c: Config, txid: string, i: nat)
    ensures
      var db := Execute(INITIAL, events, c).db;
      AllLogged(db) && RowIsFromFirst(db, FirstJob(events, c, txid, i), txid, i)
  {
    if events != [] {
      var n := |events| - 1;
      var s := Execute(INITIAL, events[..n], c);
      RowsFromFirstJobs(events[..n], c, txid, i);
      ReachableValid(events[..n], c);
      LoggedStep(s, events[n], c);
      FirstStep(s, events[n], c, FirstJob(events[..n], c, txid, i), FirstJob(events, c, txid, i), txid, i);
    }
  }

  lemma {:induction false} SomeOutput(rows: seq<Utxo>, invoice: nat)
    requires UtxoCount(rows, invoice) > 0
    ensures exists u :: 0 <= u < |rows| && rows[u].invoice == invoice
  {
    var n := |rows| - 1;
    if rows[n].invoice != invoice {
      SomeOutput(rows[..n], invoice);
      var u :| 0 <= u < n && rows[..n][u].invoice == invoice;
      assert rows[u].invoice == invoice;
    }
  }

  lemma SameRow(rows: seq<Transaction>, t: nat, u: nat, txid: string, i: nat)
    requires KeysDiffer(rows) && t < |rows| && u < |rows| && IsFor(rows[t], txid, i) && IsFor(rows[u], txid, i)
    ensures t == u
  {
  }

  /** The output and the log of a PAID invoice, and the job that decided the amount. */
  ghost predicate CreditedFrom(db: Db, u: nat, l: nat, job: Job, i: nat) {
    && u < |db.utxos| && l < |db.fees| && db.utxos[u].invoice == i && Credits(db, db.fees[l], db.utxos[u])
    && job.txid == db.utxos[u].txid && db.utxos[u].amount == db.fees[l].gross == job.amount
  }

  /** In every run, however often a deposit was retried and whatever its later jobs claim: the registered
      output of a PAID invoice and the gross of its fee log are the amount of the first job with its txid,
      and the merchant got that amount less the fee, rounded down. */
  lemma CreditedAmount(events: seq<Event>, c: Config, i: nat)
    requires
      var db := Execute(INITIAL, events, c).db;
      i < |db.invoices| && db.invoices[i].status == PAID
    ensures
      var db := Execute(INITIAL, events, c).db;
      exists u: nat, l: nat ::
        && u < |db.utxos| && FirstJob(events, c, db.utxos[u].txid, i).Some?
        && CreditedFrom(db, u, l, FirstJob(events, c, db.utxos[u].txid, i).value, i)
  {
    var s := Execute(INITIAL, events, c);
    var db := s.db;
    ReachableValid(events, c);
    assert CreditedOnce(db, i);
    SomeOutput(db.utxos, i);
    var u: nat :| u < |db.utxos| && db.utxos[u].invoice == i;
    var txid := db.utxos[u].txid;
    RowsFromFirstJobs(events, c, txid, i);
    assert Logged(db, u);
    var l: nat :| l < |db.fees| && Credits(db, db.fees[l], db.utxos[u]);
    var first := FirstJob(events, c, txid, i);
    hide MoneyFlow.Execute, FirstJob;
    assert first.Some?;
    assert HasRow(db, txid, i, first.value.amount);
    var t :| 0 <= t < |db.transactions| && IsFor(db.transactions[t], txid, i)
             && db.transactions[t].received == first.value.amount;
    SameRow(db.transactions, t, db.fees[l].transaction, txid, i);
    FirstHasTxid(events, c, txid, i);
    assert CreditedFrom(db, u, l, first.value, i);
  }

  lemma {:induction false} FirstHasTxid(events: seq<Event>, c: Config, txid: string, i: nat)
    ensures FirstJob(events, c, txid, i).Some? ==> FirstJob(events, c, txid, i).value.txid == txid
  {
    if events != [] {
      FirstHasTxid(events[..|events| - 1], c, txid, i);
    }
  }
}
