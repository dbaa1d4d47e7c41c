/** The order and the time in which jobs come back: first in, first out, and no retry before its delay. */
module QueueOrder {
  import opened ByteStrings
  import opened Store
  import opened Ledger
  import opened Crediting
  import opened RetryQueue
  import opened LedgerService

  // ---------------------------------------------------------------------------
  // First in, first out
  // ---------------------------------------------------------------------------

  /** What an event puts on the hot list, in order, and what it takes from it. */
  function Pushed(s: Service, e: Event): seq<Job> {
    match e
    case Match(job) => [job.(retryCount := 0)]
    case Promote(promoter) => if promoter in s.ranges then s.ranges[promoter] else []
    case _ => []
  }

  ghost function Popped(s: Service, e: Event, c: Settings): seq<Job> {
    if e.Pop? then Step(s, e, c).inFlight[|s.inFlight|..] else []
  }

  ghost function AllPushed(events: seq<Event>, c: Settings): seq<Job> {
    if events == [] then [] else
    var n := |events| - 1;
    AllPushed(events[..n], c) + Pushed(Execute(IDLE, events[..n], c), events[n])
  }

  ghost function AllPopped(events: seq<Event>, c: Settings): seq<Job> {
    if events == [] then [] else
    var n := |events| - 1;
    AllPopped(events[..n], c) + Popped(Execute(IDLE, events[..n], c), events[n], c)
  }

  lemma {:induction false} ReversedConcat<T>(a: seq<T>, b: seq<T>)
    ensures Reversed(a + b) == Reversed(b) + Reversed(a)
  {
  }

  lemma {:induction false} MovedInOrder(q: Queues, due: seq<Job>)
    ensures Reversed(Moved(q, due).hot) == Reversed(q.hot) + due
  {
    if due != [] {
      var n := |due| - 1;
      MovedInOrder(q, due[..n]);
      ReversedConcat([due[n]], Moved(q, due[..n]).hot);
      assert due == due[..n] + [due[n]];
    }
  }

  lemma OrderStep(s: Service, e: Event, c: Settings)
    ensures Reversed(s.q.hot) + Pushed(s, e) == Popped(s, e, c) + Reversed(Step(s, e, c).q.hot)
  {
    hide Reversed;
    match e
    case Match(job) =>
      ReversedConcat([job.(retryCount := 0)], s.q.hot);
      ReversedOne(job.(retryCount := 0));
    case Pop =>
      if s.q.hot != [] {
        var n := |s.q.hot| - 1;
        assert s.q.hot == s.q.hot[..n] + [s.q.hot[n]];
        ReversedConcat(s.q.hot[..n], [s.q.hot[n]]);
        ReversedOne(s.q.hot[n]);
        assert Popped(s, e, c) == [s.q.hot[n]];
      }
    case Process(i, answer, commission, now, storage) =>
      if i < |s.inFlight| { HotUntouched(s, i, answer, commission, now, storage, c); }
    case Promote(promoter) =>
      if promoter in s.ranges { MovedInOrder(s.q, s.ranges[promoter]); }
    case _ =>
  }

  lemma ReversedOne<T>(x: T)
    ensures Reversed([x]) == [x]
  {
  }

  lemma HotUntouched(s: Service, i: nat, answer: Option<int>, commission: nat, now: int, storage: Storage, c: Settings)
    requires i < |s.inFlight|
    ensures ProcessStep(s, i, answer, commission, now, storage, c).q.hot == s.q.hot
  {
    hide Processed;
  }

  /** In every run, jobs are popped in the order in which they were pushed: the popped ones, and then those on
      the list from its right end to its left, are all that were pushed. */
  lemma {:induction false} FirstInFirstOut(events: seq<Event>, c: Settings)
    ensures AllPushed(events, c) == AllPopped(events, c) + Reversed(Execute(IDLE, events, c).q.hot)
  {
    if events != [] {
      var n := |events| - 1;
      var s := Execute(IDLE, events[..n], c);
      FirstInFirstOut(events[..n], c);
      OrderStep(s, events[n], c);
      hide Step, Reversed, Pushed, Popped;
      Appended(AllPushed(events[..n], c), AllPopped(events[..n], c), Reversed(s.q.hot), Pushed(s, events[n]),
               Popped(s, events[n], c), Reversed(Step(s, events[n], c).q.hot));
    }
  }

  lemma Appended(pushed: seq<Job>, popped: seq<Job>, waiting: seq<Job>, more: seq<Job>, next: seq<Job>, after: seq<Job>)
    requires pushed == popped + waiting && waiting + more == next + after
    ensures pushed + more == (popped + next) + after
  {
    assert pushed + more == popped + (waiting + more);
    assert popped + (next + after) == (popped + next) + after;
  }

  // ---------------------------------------------------------------------------
  // No retry before its delay
  // ---------------------------------------------------------------------------

  /** The job as it is scheduled after the node's answer. */
  function Next(job: Job, answer: Option<int>): Job {
    Again(if answer.Some? then job.(confirmations := answer.value) else job)
  }

  /** The event processes a job that may be scheduled again as `j`. */
  predicate Schedules(s: Service, e: Event, c: Settings, j: Job) {
    && e.Process? && e.index < |s.inFlight| && s.inFlight[e.index].retryCount <= c.maxRetries
    && j == Next(s.inFlight[e.index], e.answer)
  }

  /** Some event of the run scheduled `j`, a delay before `time`. */
  ghost predicate ScheduledFor(events: seq<Event>, c: Settings, j: Job, time: int) {
    events != [] &&
    (var n := |events| - 1;
     || ScheduledFor(events[..n], c, j, time)
     || (Schedules(Execute(IDLE, events[..n], c), events[n], c, j) && time == events[n].now + c.retryDelay))
  }

  /** Processing schedules nothing else, and at no other time. */
  lemma FateSchedules(db: Db, q: Queues, job: Job, answer: Option<int>, commission: nat, now: int,
                      storage: Storage, c: Settings)
    ensures
      var f := FateOf(db, q, job, answer, commission, now, storage, c);
      f.q == q || (job.retryCount <= c.maxRetries
                   && f.q == q.(retry := q.retry[Next(job, answer) := now + c.retryDelay]))
  {
    hide Processed;
  }

  /** Exactly when a job is scheduled again, and for when: retries are left, the push works, and the node does
      not answer or the open invoice lacks confirmations. */
  lemma ScheduledAgain(db: Db, q: Queues, job: Job, answer: Option<int>, commission: nat, now: int,
                       storage: Storage, c: Settings)
    requires LedgerValid(db, c.required)
    ensures
      var f := FateOf(db, q, job, answer, commission, now, storage, c);
      var open := job.invoice < |db.invoices| && db.invoices[job.invoice].status != PAID;
      f.q == if job.retryCount <= c.maxRetries && !storage.PushFails?
                && (answer.None? || (!storage.SessionFails? && open && answer.value < c.required))
             then q.(retry := q.retry[Next(job, answer) := now + c.retryDelay]) else q
  {
    if answer.Some? {
      OutcomeWhen(db, job.(confirmations := answer.value), answer.value, c.required, commission);
      hide Processed;
    }
  }

  /** What a processed job leaves in the database: its transaction, or nothing when a storage call fails. */
  lemma CommittedOrNot(db: Db, q: Queues, job: Job, answer: Option<int>, commission: nat, now: int,
                       storage: Storage, c: Settings)
    requires LedgerValid(db, c.required)
    ensures
      var f := FateOf(db, q, job, answer, commission, now, storage, c);
      && (storage.SessionFails? || storage.CommitFails? ==> f.db == db)
      && (f.end == Some(StorageFailed) ==> f.db == db)
      && (f.end != Some(StorageFailed) && !storage.CommitFails? && job.retryCount <= c.maxRetries && answer.Some? ==>
            f.db == Processed(db, job.(confirmations := answer.value), answer.value, c.required, commission).0)
  {
  }

  lemma {:induction false} EveryRetryIsDelayed(events: seq<Event>, c: Settings, j: Job)
    ensures
      var q := Execute(IDLE, events, c).q;
      j in q.retry ==> ScheduledFor(events, c, j, q.retry[j])
  {
    if events != [] {
      var n := |events| - 1;
      var s, e := Execute(IDLE, events[..n], c), events[n];
      EveryRetryIsDelayed(events[..n], c, j);
      if e.Process? && e.index < |s.inFlight| {
        FateSchedules(s.db, s.q, s.inFlight[e.index], e.answer, e.commission, e.now, e.storage, c);
        hide FateOf;
      } else if e.Promote? && e.promoter in s.ranges {
        MovedEntries(s.q, s.ranges[e.promoter]);
        hide Moved;
      }
    }
  }

  /** In every run, a range that is read at some time contains only jobs that were scheduled a full delay
      before. */
  lemma NoRetryBeforeItsDelay(events: seq<Event>, c: Settings, due: seq<Job>, now: int, j: Job)
    requires IsRange(due, Execute(IDLE, events, c).q.retry, now) && j in due
    ensures exists time: int :: time <= now && ScheduledFor(events, c, j, time)
  {
    EveryRetryIsDelayed(events, c, j);
    var time := Execute(IDLE, events, c).q.retry[j];
    assert time <= now;
  }
}
