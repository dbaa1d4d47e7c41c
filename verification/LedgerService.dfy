/** The ledger service as a scheduler: jobs go from the hot list into flight, and from there to an
    end or to the retry set; promoters move due retries back. Each Redis command, each Redis
    transaction and each database transaction is one event, except that the push of a job that waits
    and the commit of its session make one event together. */
module LedgerService {
  import opened ByteStrings
  import opened Store
  import opened Ledger
  import opened Crediting
  import opened RetryQueue
  import MoneyFlow
  import MoneyInvariants
  import MoneyTheorems

  datatype Settings = Settings(required: int, maxRetries: nat, retryDelay: int)

  /** The job and the invoice it pays: what must not get lost. */
  type key = (string, nat)

  function Key(job: Job): key {
    (job.txid, job.invoice)
  }

  /** Ends other than a PAID invoice. */
  datatype End =
    | RetriesExhausted
    | InvoiceMissing
    | CreditRejected   // the outpoint was registered for another invoice
    | StorageFailed

  /** What goes wrong with storage while a job is processed, if anything: the push of the retry, the
      database session before it has done anything, or its commit. */
  datatype Storage = AllWorks | PushFails | SessionFails | CommitFails

  /** `ranges` holds what each promoter has read and not yet moved. */
  datatype Service = Service(db: Db, q: Queues, inFlight: seq<Job>, ranges: map<nat, seq<Job>>)

  const IDLE: Service := Service(EMPTY, Queues([], map[]), [], map[])

  datatype Event =
    | Match(job: Job)
    | Pop
    | Process(index: nat, answer: Option<int>, commission: nat, now: int, storage: Storage)
    | ReadDue(promoter: nat, due: seq<Job>, now: int)
    | Promote(promoter: nat)
    | Elsewhere(db: Db)

  /** What other services do to the database: PAID invoices stay PAID. */
  ghost predicate KeepsPaid(before: Db, after: Db) {
    && |before.invoices| <= |after.invoices|
    && forall i :: 0 <= i < |before.invoices| && before.invoices[i].status == PAID ==> after.invoices[i].status == PAID
  }

  /** What becomes of a job in flight: the new database and queues, and the end if it is given up. */
  datatype Fate = Fate(db: Db, q: Queues, end: Option<End>)

  /** `TxProcessor.process`; an error it does not handle is logged and the job is gone. */
  function FateOf(db: Db, q: Queues, job: Job, answer: Option<int>, commission: nat, now: int,
                  storage: Storage, c: Settings): Fate {
    if job.retryCount > c.maxRetries then Fate(db, q, Some(RetriesExhausted)) else
    match answer
    case None => Requeued(db, db, q, job, now, storage, c)
    case Some(confirmations) =>
      if storage.SessionFails? then Fate(db, q, Some(StorageFailed)) else
      var current := job.(confirmations := confirmations);
      var (after, outcome) := Processed(db, current, confirmations, c.required, commission);
      var committed := if storage.CommitFails? then db else after;
      match outcome
      case NoInvoice => Fate(db, q, Some(InvoiceMissing))
      case AlreadyPaid => Fate(db, q, None)
      case Waiting => Requeued(db, committed, q, current, now, storage, c)
      case NowPaid => Fate(committed, q, if storage.CommitFails? then Some(StorageFailed) else None)
      case WasCredited => Fate(committed, q, None)
      case DatabaseError => Fate(db, q, Some(CreditRejected))
  }

  /** The job is scheduled again inside the session, so that a failing push rolls it back. */
  function Requeued(db: Db, committed: Db, q: Queues, job: Job, now: int, storage: Storage, c: Settings): Fate {
    if storage.PushFails? then Fate(db, q, Some(StorageFailed))
    else Fate(committed, PushedRetry(q, job, now + c.retryDelay), None)
  }

  /** `TxProcessor.process`, with the storage calls that fail as an input. */
  class Worker {
    const queue: LedgerQueue
    const processor: TxProcessor
    const maxRetries: nat

    ghost predicate Valid() {
      processor.Valid()
    }

    ghost function Config(): Settings {
      Settings(processor.required, maxRetries, queue.retryDelay)
    }

    constructor (queue: LedgerQueue, processor: TxProcessor, maxRetries: nat)
      requires processor.Valid()
      ensures Valid() && this.queue == queue && this.processor == processor && this.maxRetries == maxRetries
    {
      this.queue, this.processor, this.maxRetries := queue, processor, maxRetries;
    }

    method Process(job: LedgerJob, answer: Option<int>, commission: nat, now: int, storage: Storage)
      requires Valid()
      modifies queue, processor.session, job
      ensures
        var fate := FateOf(old(processor.session.View()), old(queue.View()), old(job.Payload()),
                           answer, commission, now, storage, Config());
        processor.session.View() == fate.db && queue.View() == fate.q
    {
      if job.retryCount > maxRetries {
        return;
      }
      if answer.None? {
        if !storage.PushFails? {
          queue.PushRetry(job, now);
        }
        return;
      }
      var confirmations := answer.value;
      job.confirmations := confirmations;
      if !storage.SessionFails? {
        ProcessInTransaction(job, confirmations, commission, now, storage);
      }
    }

    /** The body of `session.begin()`: an error of the push or of the commit rolls back. */
    method ProcessInTransaction(job: LedgerJob, confirmations: int, commission: nat, now: int, storage: Storage)
      requires Valid() && job.confirmations == confirmations && job.retryCount <= maxRetries && !storage.SessionFails?
      modifies queue, processor.session, job
      ensures
        var fate := FateOf(old(processor.session.View()), old(queue.View()), old(job.Payload()),
                           Some(confirmations), commission, now, storage, Config());
        processor.session.View() == fate.db && queue.View() == fate.q
    {
      var session := processor.session;
      var saved := session.View();
      var outcome := processor.ProcessInSession(job.Payload(), confirmations, commission);
      if outcome == Waiting {
        if storage.PushFails? {
          session.Restore(saved);
          return;
        }
        queue.PushRetry(job, now);
      }
      if storage.CommitFails? {
        session.Restore(saved);
      }
    }
  }

  function Without<T>(s: seq<T>, i: nat): seq<T>
    requires i < |s|
  {
    s[..i] + s[i + 1..]
  }

  function ProcessStep(s: Service, i: nat, answer: Option<int>, commission: nat, now: int, storage: Storage,
                       c: Settings): Service
    requires i < |s.inFlight|
  {
    var fate := FateOf(s.db, s.q, s.inFlight[i], answer, commission, now, storage, c);
    s.(inFlight := Without(s.inFlight, i), db := fate.db, q := fate.q)
  }

  ghost function Step(s: Service, e: Event, c: Settings): Service {
    match e
    case Match(job) => s.(q := PushedHot(s.q, job.(retryCount := 0)))
    case Pop =>
      if s.q.hot == [] then s else
      var n := |s.q.hot| - 1;
      s.(q := s.q.(hot := s.q.hot[..n]), inFlight := s.inFlight + [s.q.hot[n]])
    case Process(i, answer, commission, now, storage) =>
      if i < |s.inFlight| then ProcessStep(s, i, answer, commission, now, storage, c) else s
    case ReadDue(promoter, due, now) =>
      if IsRange(due, s.q.retry, now) then s.(ranges := s.ranges[promoter := due]) else s
    case Promote(promoter) =>
      if promoter in s.ranges
      then s.(q := Moved(s.q, s.ranges[promoter]), ranges := s.ranges - {promoter}) else s
    case Elsewhere(db) =>
      if KeepsPaid(s.db, db) && LedgerValid(db, c.required) then s.(db := db) else s
  }

  ghost function Execute(s: Service, events: seq<Event>, c: Settings): Service {
    if events == [] then s else Step(Execute(s, events[..|events| - 1], c), events[|events| - 1], c)
  }

  // ---------------------------------------------------------------------------
  // No job is lost
  // ---------------------------------------------------------------------------

  ghost predicate Holds(jobs: seq<Job>, k: key) {
    exists j :: j in jobs && Key(j) == k
  }

  ghost predicate Scheduled(retry: map<Job, int>, k: key) {
    exists j :: j in retry && Key(j) == k
  }

  ghost predicate Present(s: Service, k: key) {
    Holds(s.q.hot, k) || Holds(s.inFlight, k) || Scheduled(s.q.retry, k)
  }

  predicate Paid(db: Db, invoice: nat) {
    invoice < |db.invoices| && db.invoices[invoice].status == PAID
  }

  /** The event processes a job with this key. */
  predicate Handles(s: Service, e: Event, k: key) {
    e.Process? && e.index < |s.inFlight| && Key(s.inFlight[e.index]) == k
  }

  /** The event ends the way of a job with this key: its invoice is PAID, or the job is given up. */
  ghost predicate Leaves(s: Service, e: Event, c: Settings, k: key) {
    && Handles(s, e, k)
    && (Paid(Step(s, e, c).db, k.1) || EventFate(s, e, c).end.Some?)
  }

  function EventFate(s: Service, e: Event, c: Settings): Fate
    requires e.Process? && e.index < |s.inFlight|
  {
    FateOf(s.db, s.q, s.inFlight[e.index], e.answer, e.commission, e.now, e.storage, c)
  }

  /** The event takes the last copy of a key out of flight without scheduling it again. */
  ghost predicate TakesLast(s: Service, e: Event, c: Settings, k: key) {
    && Handles(s, e, k)
    && !Holds(s.q.hot, k) && !Holds(Without(s.inFlight, e.index), k) && !Scheduled(EventFate(s, e, c).q.retry, k)
  }

  /** A credited job's invoice is PAID, and PAID is never left. */
  lemma ProcessedPays(db: Db, job: Job, confirmations: int, required: int, commission: nat)
    requires LedgerValid(db, required)
    ensures
      var (after, outcome) := Processed(db, job, confirmations, required, commission);
      && KeepsPaid(db, after)
      && (outcome == AlreadyPaid || outcome == NowPaid ==> Paid(after, job.invoice))
  {
    ProcessingKeepsValid(db, job, confirmations, required, commission);
    if job.invoice < |db.invoices| && db.invoices[job.invoice].status != PAID {
      UpsertKeeps(db, job, confirmations);
    }
  }

  /** Every fate either schedules the job again, or pays its invoice, or names the end. */
  lemma FateAccounts(db: Db, q: Queues, job: Job, answer: Option<int>, commission: nat, now: int,
                     storage: Storage, c: Settings)
    requires LedgerValid(db, c.required)
    ensures
      var f := FateOf(db, q, job, answer, commission, now, storage, c);
      && LedgerValid(f.db, c.required) && KeepsPaid(db, f.db)
      && f.q.hot == q.hot && (forall j :: j in q.retry ==> j in f.q.retry)
      && (f.end == Some(StorageFailed) ==> storage != AllWorks)
      && (Scheduled(f.q.retry, Key(job)) || Paid(f.db, job.invoice) || f.end.Some?)
  {
    if job.retryCount <= c.maxRetries {
      var next := Again(if answer.Some? then job.(confirmations := answer.value) else job);
      assert Key(next) == Key(job);
      if answer.Some? {
        ProcessingKeepsValid(db, job.(confirmations := answer.value), answer.value, c.required, commission);
        ProcessedPays(db, job.(confirmations := answer.value), answer.value, c.required, commission);
        hide Processed;
      }
    }
  }

  /** Every event of the interleaved payouts and credits is something other services may do. */
  lemma PayoutsAreElsewhere(s: MoneyFlow.State, e: MoneyFlow.Event, c: MoneyFlow.Config)
    requires MoneyInvariants.Valid(s, c)
    ensures KeepsPaid(s.db, MoneyFlow.Step(s, e, c).db) && LedgerValid(MoneyFlow.Step(s, e, c).db, c.required)
  {
    MoneyInvariants.StepKeepsValid(s, e, c);
    MoneyTheorems.StepGrows(s, e, c);
    hide MoneyFlow.Step;
    forall i | 0 <= i < |s.db.invoices| && s.db.invoices[i].status == PAID
      ensures MoneyFlow.Step(s, e, c).db.invoices[i].status == PAID
    {
      MoneyTheorems.StepKeepsPaid(s, e, c, i);
    }
  }

  lemma StepKeepsLedger(s: Service, e: Event, c: Settings)
    requires LedgerValid(s.db, c.required)
    ensures LedgerValid(Step(s, e, c).db, c.required) && KeepsPaid(s.db, Step(s, e, c).db)
  {
    if e.Process? && e.index < |s.inFlight| {
      FateAccounts(s.db, s.q, s.inFlight[e.index], e.answer, e.commission, e.now, e.storage, c);
      hide FateOf;
    }
  }

  /** Exactly when a key that is present leaves the queues: when its last copy is processed and not
      scheduled again; and that happens only if its invoice is PAID or this very job is given up. */
  lemma StepAccounts(s: Service, e: Event, c: Settings, k: key)
    requires LedgerValid(s.db, c.required) && Present(s, k)
    ensures !Present(Step(s, e, c), k) <==> TakesLast(s, e, c, k)
    ensures !Present(Step(s, e, c), k) ==> Leaves(s, e, c, k)
  {
    match e
    case Match(job) => HotGrows(s.q.hot, Step(s, e, c).q.hot, k);
    case Pop => if s.q.hot != [] { PopAccounts(s, c, k); }
    case Process(i, _, _, _, _) => if i < |s.inFlight| { ProcessAccounts(s, e, c, k); }
    case Promote(promoter) => if promoter in s.ranges { PromoteAccounts(s, promoter, c, k); }
    case _ =>
  }

  lemma HotGrows(hot: seq<Job>, after: seq<Job>, k: key)
    requires forall j :: j in hot ==> j in after
    ensures Holds(hot, k) ==> Holds(after, k)
  {
  }

  lemma PopAccounts(s: Service, c: Settings, k: key)
    requires Present(s, k) && s.q.hot != []
    ensures Present(Step(s, Pop, c), k)
  {
    var t := Step(s, Pop, c);
    var n := |s.q.hot| - 1;
    assert s.q.hot == s.q.hot[..n] + [s.q.hot[n]];
    if Holds(s.q.hot, k) {
      var j :| j in s.q.hot && Key(j) == k;
      assert j in t.q.hot || j in t.inFlight;
    } else if Holds(s.inFlight, k) {
      var j :| j in s.inFlight && Key(j) == k;
      assert j in t.inFlight;
    }
  }

  lemma ProcessAccounts(s: Service, e: Event, c: Settings, k: key)
    requires LedgerValid(s.db, c.required) && Present(s, k) && e.Process? && e.index < |s.inFlight|
    ensures !Present(Step(s, e, c), k) <==> TakesLast(s, e, c, k)
    ensures !Present(Step(s, e, c), k) ==> Leaves(s, e, c, k)
  {
    var job := s.inFlight[e.index];
    FateAccounts(s.db, s.q, job, e.answer, e.commission, e.now, e.storage, c);
    hide FateOf;
    var t := Step(s, e, c);
    assert s.inFlight == s.inFlight[..e.index] + [job] + s.inFlight[e.index + 1..];
    if Key(job) != k {
      if Holds(s.inFlight, k) {
        var j :| j in s.inFlight && Key(j) == k;
        assert j in t.inFlight;
      } else if Scheduled(s.q.retry, k) {
        var j :| j in s.q.retry && Key(j) == k;
        assert j in t.q.retry;
      }
    }
  }

  /** A stale range may push payloads that are gone; it never removes one without pushing it. */
  lemma PromoteAccounts(s: Service, promoter: nat, c: Settings, k: key)
    requires Present(s, k) && promoter in s.ranges
    ensures Present(Step(s, Promote(promoter), c), k)
  {
    var t := Step(s, Promote(promoter), c);
    MovedEntries(s.q, s.ranges[promoter]);
    hide Moved;
    if Holds(s.q.hot, k) {
      var j :| j in s.q.hot && Key(j) == k;
      assert j in t.q.hot;
    } else if Scheduled(s.q.retry, k) {
      var j :| j in s.q.retry && Key(j) == k;
      assert j in t.q.hot || j in t.q.retry;
    }
  }

  lemma {:induction false} ServiceValid(events: seq<Event>, c: Settings)
    ensures LedgerValid(Execute(IDLE, events, c).db, c.required)
  {
    if events != [] {
      ServiceValid(events[..|events| - 1], c);
      StepKeepsLedger(Execute(IDLE, events[..|events| - 1], c), events[|events| - 1], c);
    }
  }

  // ---------------------------------------------------------------------------
  // Whole runs
  // ---------------------------------------------------------------------------

  /** The state after the first `i` events of a run. */
  ghost function Reached(events: seq<Event>, i: nat, c: Settings): Service
    requires i <= |events|
  {
    Execute(IDLE, events[..i], c)
  }

  lemma NextReached(events: seq<Event>, i: nat, c: Settings)
    requires i < |events|
    ensures Reached(events, i + 1, c) == Step(Reached(events, i, c), events[i], c)
  {
    assert events[..i + 1][..i] == events[..i];
  }

  /** From the `m`-th to the `i`-th state of the run a job with this key is in a queue or in flight. */
  ghost predicate PresentThrough(events: seq<Event>, c: Settings, m: nat, i: nat, k: key) {
    i <= |events| && forall j :: m <= j <= i ==> Present(Reached(events, j, c), k)
  }

  /** The key is present through the `i`-th state, and the next event, if there is one, takes it out. */
  ghost predicate LastPresent(events: seq<Event>, c: Settings, m: nat, i: nat, k: key) {
    && m <= i && PresentThrough(events, c, m, i, k)
    && (i < |events| ==> !Present(Reached(events, i + 1, c), k) && Leaves(Reached(events, i, c), events[i], c, k))
  }

  /** In every run, from any state in which a key is present: it stays present to the end of the run, or
      up to an event that processes a job with this key and ends in PAID or gives that job up. */
  lemma PresentUntilEnd(events: seq<Event>, c: Settings, m: nat, k: key)
    requires m <= |events| && Present(Reached(events, m, c), k)
    ensures exists i: nat :: LastPresent(events, c, m, i, k)
  {
    var i := m;
    while i < |events| && Present(Reached(events, i + 1, c), k)
      invariant m <= i <= |events| && PresentThrough(events, c, m, i, k)
    {
      i := i + 1;
    }
    if i < |events| {
      ServiceValid(events[..i], c);
      NextReached(events, i, c);
      StepAccounts(Reached(events, i, c), events[i], c, k);
      hide Leaves;
    }
    assert LastPresent(events, c, m, i, k);
  }

  /** In every run, whatever the interleaving of workers, promoters and new matches: after every match
      its key is in the hot list, in flight or in the retry set, until a job with this key is processed
      whose invoice is PAID or which is given up. */
  lemma NoJobLost(events: seq<Event>, c: Settings, m: nat)
    requires m < |events| && events[m].Match?
    ensures var n, k := m + 1, Key(events[m].job); exists i: nat :: LastPresent(events, c, n, i, k)
  {
    var j := events[m].job.(retryCount := 0);
    NextReached(events, m, c);
    assert j in Reached(events, m + 1, c).q.hot && Key(j) == Key(events[m].job);
    PresentUntilEnd(events, c, m + 1, Key(events[m].job));
  }

  /** Why a job is given up or paid although no storage call fails. */
  ghost predicate LeavesInOrder(s: Service, e: Event, c: Settings, k: key) {
    && Handles(s, e, k)
    && var job := s.inFlight[e.index];
       || job.retryCount > c.maxRetries
       || k.1 >= |s.db.invoices|
       || Paid(Step(s, e, c).db, k.1)
       || (e.answer.Some? && e.answer.value >= c.required && HasOutpoint(s.db.utxos, k.0))
  }

  /** When storage works for the jobs of a key, the key leaves only because retries ran out, or the invoice is
      missing or PAID, or its outpoint is registered for another invoice. */
  lemma NoFaultNoDrop(events: seq<Event>, c: Settings, m: nat, k: key)
    requires m <= |events| && Present(Reached(events, m, c), k)
    requires forall i :: m <= i < |events| && Handles(Reached(events, i, c), events[i], k) ==>
                           events[i].storage == AllWorks
    ensures exists i: nat :: LastPresent(events, c, m, i, k)
              && (i < |events| ==> LeavesInOrder(Reached(events, i, c), events[i], c, k))
  {
    PresentUntilEnd(events, c, m, k);
    var i: nat :| LastPresent(events, c, m, i, k);
    if i < |events| {
      ServiceValid(events[..i], c);
      EndsInOrder(Reached(events, i, c), events[i], c, k);
    }
  }

  lemma EndsInOrder(s: Service, e: Event, c: Settings, k: key)
    requires LedgerValid(s.db, c.required) && Leaves(s, e, c, k) && e.storage == AllWorks
    ensures LeavesInOrder(s, e, c, k)
  {
    var job := s.inFlight[e.index];
    EndsWhen(s.db, s.q, job, e.answer, e.commission, e.now, e.storage, c);
    hide FateOf;
  }

  /** A credit that would be rejected: the outpoint is registered for another invoice. */
  predicate Rejects(db: Db, job: Job, answer: Option<int>, c: Settings) {
    && answer.Some? && answer.value >= c.required
    && job.invoice < |db.invoices| && db.invoices[job.invoice].status != PAID
    && HasOutpoint(db.utxos, job.txid)
  }

  /** The storage call that fails is one that the job needs. */
  predicate Breaks(db: Db, job: Job, answer: Option<int>, storage: Storage, c: Settings) {
    var open := job.invoice < |db.invoices| && db.invoices[job.invoice].status != PAID;
    match storage
    case AllWorks => false
    case PushFails => answer.None? || (open && answer.value < c.required)
    case SessionFails => answer.Some?
    case CommitFails => answer.Some? && open && answer.value >= c.required && !HasOutpoint(db.utxos, job.txid)
  }

  /** Exactly when a job is given up, and why. */
  lemma EndsWhen(db: Db, q: Queues, job: Job, answer: Option<int>, commission: nat, now: int, storage: Storage,
                 c: Settings)
    requires LedgerValid(db, c.required)
    ensures
      var end := FateOf(db, q, job, answer, commission, now, storage, c).end;
      var tried := job.retryCount <= c.maxRetries;
      && (end == Some(RetriesExhausted) <==> !tried)
      && (end == Some(InvoiceMissing) <==>
            tried && answer.Some? && !storage.SessionFails? && job.invoice >= |db.invoices|)
      && (end == Some(CreditRejected) <==> tried && !storage.SessionFails? && Rejects(db, job, answer, c))
      && (end == Some(StorageFailed) <==> tried && Breaks(db, job, answer, storage, c))
  {
    if answer.Some? {
      ProcessingKeepsValid(db, job.(confirmations := answer.value), answer.value, c.required, commission);
      OutcomeWhen(db, job.(confirmations := answer.value), answer.value, c.required, commission);
      hide Processed;
    }
  }
}
