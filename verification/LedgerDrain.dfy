/** The two-queue system drains: with one promoter and no new matches, every pop, every processing
    and every promotion brings the jobs closer to their ends. */
module LedgerDrain {
  import opened ByteStrings
  import opened Store
  import opened Ledger
  import opened RetryQueue
  import opened LedgerService

  // ---------------------------------------------------------------------------
  // Weights
  // ---------------------------------------------------------------------------

  /** What a job weighs in the hot list, in flight, and in the retry set. */
  datatype Weights = Weights(hot: Job -> nat, flight: Job -> nat, retry: Job -> nat)

  function SumSeq(jobs: seq<Job>, f: Job -> nat): nat {
    if jobs == [] then 0 else SumSeq(jobs[..|jobs| - 1], f) + f(jobs[|jobs| - 1])
  }

  ghost function SumSet(jobs: set<Job>, f: Job -> nat): nat {
    if jobs == {} then 0 else
    var j :| j in jobs;
    f(j) + SumSet(jobs - {j}, f)
  }

  ghost function Weight(s: Service, w: Weights): nat {
    SumSeq(s.q.hot, w.hot) + SumSeq(s.inFlight, w.flight) + SumSet(s.q.retry.Keys, w.retry)
  }

  lemma {:induction false} SumSetRemove(jobs: set<Job>, j: Job, f: Job -> nat)
    requires j in jobs
    ensures SumSet(jobs, f) == f(j) + SumSet(jobs - {j}, f)
  {
    var i :| i in jobs && SumSet(jobs, f) == f(i) + SumSet(jobs - {i}, f);
    if i != j {
      SumSetRemove(jobs - {i}, j, f);
      SumSetRemove(jobs - {j}, i, f);
      assert jobs - {i} - {j} == jobs - {j} - {i};
    }
  }

  lemma SumSetAdd(jobs: set<Job>, j: Job, f: Job -> nat)
    ensures SumSet(jobs + {j}, f) <= SumSet(jobs, f) + f(j)
  {
    if j in jobs {
      assert jobs + {j} == jobs;
    } else {
      SumSetRemove(jobs + {j}, j, f);
      assert jobs + {j} - {j} == jobs;
    }
  }

  lemma {:induction false} SumSeqConcat(a: seq<Job>, b: seq<Job>, f: Job -> nat)
    ensures SumSeq(a + b, f) == SumSeq(a, f) + SumSeq(b, f)
  {
    if b == [] {
      assert a + b == a;
    } else {
      var n := |b| - 1;
      SumSeqConcat(a, b[..n], f);
      assert (a + b)[..|a| + n] == a + b[..n];
    }
  }

  lemma {:induction false} SumSeqWithout(jobs: seq<Job>, i: nat, f: Job -> nat)
    requires i < |jobs|
    ensures SumSeq(jobs, f) == SumSeq(Without(jobs, i), f) + f(jobs[i])
    decreases |jobs|
  {
    var n := |jobs| - 1;
    if i < n {
      SumSeqWithout(jobs[..n], i, f);
      assert Without(jobs, i)[..n - 1] == Without(jobs[..n], i);
    } else {
      assert Without(jobs, i) == jobs[..n];
    }
  }

  // ---------------------------------------------------------------------------
  // What each event does to the weight
  // ---------------------------------------------------------------------------

  /** With one promoter, what it has read and not moved is still in the retry set. */
  ghost predicate OnePromoter(s: Service) {
    && (forall p :: p in s.ranges ==> p == 0)
    && (0 in s.ranges ==>
          && (forall i, j :: 0 <= i < j < |s.ranges[0]| ==> s.ranges[0][i] != s.ranges[0][j])
          && (forall i :: 0 <= i < |s.ranges[0]| ==> s.ranges[0][i] in s.q.retry))
  }

  /** No new matches, and only promoter 0 reads ranges. */
  predicate Closed(e: Event) {
    !e.Match? && (e.ReadDue? ==> e.promoter == 0)
  }

  /** The event takes a job off the hot list, processes one, or moves at least one. */
  ghost predicate Productive(s: Service, e: Event) {
    || (e.Pop? && s.q.hot != [])
    || (e.Process? && e.index < |s.inFlight|)
    || (e.Promote? && e.promoter in s.ranges && s.ranges[e.promoter] != [])
  }

  lemma OnePromoterStep(s: Service, e: Event, c: Settings)
    requires OnePromoter(s) && Closed(e)
    ensures OnePromoter(Step(s, e, c))
  {
    if e.Process? && e.index < |s.inFlight| {
      FateKeepsRetries(s.db, s.q, s.inFlight[e.index], e.answer, e.commission, e.now, e.storage, c);
      hide FateOf;
    }
  }

  /** Processing adds at most one entry to the retry set and leaves the hot list alone. */
  lemma FateKeepsRetries(db: Db, q: Queues, job: Job, answer: Option<int>, commission: nat, now: int,
                         storage: Storage, c: Settings)
    ensures
      var f := FateOf(db, q, job, answer, commission, now, storage, c);
      var next := Again(if answer.Some? then job.(confirmations := answer.value) else job);
      && f.q.hot == q.hot
      && (f.q.retry.Keys == q.retry.Keys || (job.retryCount <= c.maxRetries && f.q.retry.Keys == q.retry.Keys + {next}))
  {
    hide Processed;
  }

  /** The weights never rise along the way of a job, whatever the node answers. */
  ghost predicate Descending(w: Weights, maxRetries: nat) {
    && (forall j: Job :: w.flight(j) <= w.hot(j))
    && (forall j: Job :: w.hot(j) <= w.retry(j))
    && (forall j: Job, n: int :: j.retryCount <= maxRetries ==> w.retry(Again(j.(confirmations := n))) <= w.flight(j))
  }

  lemma PopWeight(s: Service, c: Settings, w: Weights)
    requires s.q.hot != []
    ensures
      var j := s.q.hot[|s.q.hot| - 1];
      Weight(Step(s, Pop, c), w) == Weight(s, w) - w.hot(j) + w.flight(j)
  {
    var n := |s.q.hot| - 1;
    assert (s.inFlight + [s.q.hot[n]])[..|s.inFlight|] == s.inFlight;
  }

  lemma ProcessWeight(s: Service, i: nat, answer: Option<int>, commission: nat, now: int, storage: Storage,
                      c: Settings, w: Weights)
    requires i < |s.inFlight|
    ensures
      var j := s.inFlight[i];
      var n := if answer.Some? then answer.value else j.confirmations;
      var added := if j.retryCount <= c.maxRetries then w.retry(Again(j.(confirmations := n))) else 0;
      Weight(ProcessStep(s, i, answer, commission, now, storage, c), w) <= Weight(s, w) - w.flight(j) + added
  {
    var j := s.inFlight[i];
    var next := Again(if answer.Some? then j.(confirmations := answer.value) else j);
    SumSeqWithout(s.inFlight, i, w.flight);
    FateKeepsRetries(s.db, s.q, j, answer, commission, now, storage, c);
    hide FateOf;
    SumSetAdd(s.q.retry.Keys, next, w.retry);
  }

  lemma {:induction false} MoveWeight(q: Queues, due: seq<Job>, w: Weights)
    requires forall i, j :: 0 <= i < j < |due| ==> due[i] != due[j]
    requires forall i :: 0 <= i < |due| ==> due[i] in q.retry
    ensures
      var m := Moved(q, due);
      && SumSeq(m.hot, w.hot) == SumSeq(q.hot, w.hot) + SumSeq(due, w.hot)
      && SumSet(m.retry.Keys, w.retry) == SumSet(q.retry.Keys, w.retry) - SumSeq(due, w.retry)
  {
    if due != [] {
      var n := |due| - 1;
      var m := Moved(q, due[..n]);
      MoveWeight(q, due[..n], w);
      assert due[n] in m.retry by {
        MovedEntries(q, due[..n]);
        assert due[n] !in due[..n];
      }
      MoveOne(m, due[n], w);
      hide SumSet;
    }
  }

  lemma MoveOne(q: Queues, j: Job, w: Weights)
    requires j in q.retry
    ensures SumSeq([j] + q.hot, w.hot) == w.hot(j) + SumSeq(q.hot, w.hot)
    ensures SumSet((q.retry - {j}).Keys, w.retry) == SumSet(q.retry.Keys, w.retry) - w.retry(j)
  {
    SumSeqConcat([j], q.hot, w.hot);
    assert [j][..0] == [];
    SumSetRemove(q.retry.Keys, j, w.retry);
    assert (q.retry - {j}).Keys == q.retry.Keys - {j};
  }

  lemma {:induction false} SumSeqCompare(jobs: seq<Job>, f: Job -> nat, g: Job -> nat, d: nat)
    requires forall j: Job :: f(j) + d <= g(j)
    ensures SumSeq(jobs, f) + d * |jobs| <= SumSeq(jobs, g)
  {
    if jobs != [] {
      var n := |jobs| - 1;
      SumSeqCompare(jobs[..n], f, g, d);
      assert d * |jobs| == d * n + d;
    }
  }

  /** Under descending weights no closed event raises the weight. */
  lemma StepDescends(s: Service, e: Event, c: Settings, w: Weights)
    requires OnePromoter(s) && Closed(e) && Descending(w, c.maxRetries)
    ensures Weight(Step(s, e, c), w) <= Weight(s, w)
  {
    match e
    case Pop => if s.q.hot != [] { PopWeight(s, c, w); }
    case Process(i, answer, commission, now, storage) =>
      if i < |s.inFlight| {
        ProcessWeight(s, i, answer, commission, now, storage, c, w);
        hide ProcessStep;
      }
    case Promote(promoter) =>
      if promoter in s.ranges {
        MoveWeight(s.q, s.ranges[promoter], w);
        SumSeqCompare(s.ranges[promoter], w.hot, w.retry, 0);
      }
    case _ =>
  }

  // ---------------------------------------------------------------------------
  // The measure that drains
  // ---------------------------------------------------------------------------

  /** How often a job can still be scheduled again. */
  function Left(j: Job, maxRetries: nat): nat {
    if j.retryCount <= maxRetries then maxRetries + 1 - j.retryCount else 0
  }

  function DrainWeights(maxRetries: nat): Weights {
    Weights(j => 3 * Left(j, maxRetries) + 3, j => 3 * Left(j, maxRetries) + 2, j => 3 * Left(j, maxRetries) + 4)
  }

  /** Steps of the way still to go; zero only when all three places are empty. */
  ghost function Measure(s: Service, c: Settings): nat {
    Weight(s, DrainWeights(c.maxRetries))
  }

  lemma MeasureStep(s: Service, e: Event, c: Settings)
    requires OnePromoter(s) && Closed(e)
    ensures Measure(Step(s, e, c), c) + (if Productive(s, e) then 1 else 0) <= Measure(s, c)
  {
    var w := DrainWeights(c.maxRetries);
    match e
    case Pop => if s.q.hot != [] { PopWeight(s, c, w); }
    case Process(i, answer, commission, now, storage) =>
      if i < |s.inFlight| {
        ProcessWeight(s, i, answer, commission, now, storage, c, w);
        hide ProcessStep;
      }
    case Promote(promoter) =>
      if promoter in s.ranges {
        MoveWeight(s.q, s.ranges[promoter], w);
        SumSeqCompare(s.ranges[promoter], w.hot, w.retry, 1);
      }
    case _ =>
  }

  /** The productive events of a run from `s`. */
  ghost function Progress(s: Service, events: seq<Event>, c: Settings): nat {
    if events == [] then 0 else
    var n := |events| - 1;
    Progress(s, events[..n], c) + if Productive(Execute(s, events[..n], c), events[n]) then 1 else 0
  }

  /** Every run drains: the productive events are no more than the measure at its start, and the
      measure is zero exactly when no job is left anywhere. */
  lemma {:induction false} EveryRunDrains(s: Service, events: seq<Event>, c: Settings)
    requires OnePromoter(s) && forall i :: 0 <= i < |events| ==> Closed(events[i])
    ensures OnePromoter(Execute(s, events, c))
    ensures Progress(s, events, c) + Measure(Execute(s, events, c), c) <= Measure(s, c)
  {
    if events != [] {
      var n := |events| - 1;
      EveryRunDrains(s, events[..n], c);
      OnePromoterStep(Execute(s, events[..n], c), events[n], c);
      MeasureStep(Execute(s, events[..n], c), events[n], c);
    }
  }

  lemma MeasureIsZero(s: Service, c: Settings)
    ensures Measure(s, c) == 0 <==> s.q.hot == [] && s.inFlight == [] && s.q.retry == map[]
  {
    var w := DrainWeights(c.maxRetries);
    if s.q.retry != map[] {
      var j :| j in s.q.retry;
      SumSetRemove(s.q.retry.Keys, j, w.retry);
    } else {
      assert s.q.retry.Keys == {};
    }
  }

  // ---------------------------------------------------------------------------
  // There is always something to do
  // ---------------------------------------------------------------------------

  /** A set as a sequence, each element once. */
  lemma Listed(jobs: set<Job>) returns (due: seq<Job>)
    ensures forall i, j :: 0 <= i < j < |due| ==> due[i] != due[j]
    ensures forall p :: p in due <==> p in jobs
  {
    due := [];
    if jobs != {} {
      var j :| j in jobs;
      var others := Listed(jobs - {j});
      due := others + [j];
    }
  }

  /** The promoter reads a range and moves it, and that is progress. */
  ghost predicate PromotionHelps(s: Service, due: seq<Job>, now: int, c: Settings) {
    IsRange(due, s.q.retry, now) && Productive(Step(s, ReadDue(0, due, now), c), Promote(0))
  }

  ghost predicate PromotableAt(s: Service, now: int, c: Settings) {
    exists due :: PromotionHelps(s, due, now, c)
  }

  ghost predicate PromotableFrom(s: Service, time: int, c: Settings) {
    forall now :: now >= time ==> PromotableAt(s, now, c)
  }

  /** As soon as one retry is due, reading the range and moving it is progress. */
  lemma DueIsPromoted(s: Service, j: Job, now: int, c: Settings) returns (due: seq<Job>)
    requires j in s.q.retry && s.q.retry[j] <= now
    ensures PromotionHelps(s, due, now, c)
  {
    due := Listed(set p | p in s.q.retry && s.q.retry[p] <= now);
    assert IsRange(due, s.q.retry, now);
    assert j in due;
  }

  /** As long as a job is anywhere, a pop or a processing is progress now, whatever the node answers, or
      some retry is scheduled and its promotion is progress from its time on. */
  lemma WorkIsAvailable(s: Service, c: Settings)
    requires Measure(s, c) > 0
    ensures
      || Productive(s, Pop)
      || (forall answer, commission, now, storage :: Productive(s, Process(0, answer, commission, now, storage)))
      || (exists j :: j in s.q.retry && PromotableFrom(s, s.q.retry[j], c))
  {
    MeasureIsZero(s, c);
    if s.q.hot == [] && s.inFlight == [] {
      var j :| j in s.q.retry;
      forall now: int | now >= s.q.retry[j] ensures PromotableAt(s, now, c) {
        var due := DueIsPromoted(s, j, now, c);
      }
      assert PromotableFrom(s, s.q.retry[j], c);
    }
  }

  lemma {:induction false} ExecuteFurther(s: Service, a: seq<Event>, b: seq<Event>, c: Settings)
    ensures Execute(s, a + b, c) == Execute(Execute(s, a, c), b, c)
  {
    hide Step;
    if b == [] {
      assert a + b == a;
    } else {
      var n := |b| - 1;
      ExecuteFurther(s, a, b[..n], c);
      assert (a + b)[..|a| + n] == a + b[..n];
    }
  }

  /** From every state with one promoter some continuation without new matches empties all three places,
      even if the node never answers. */
  lemma {:induction false} CanDrain(s: Service, c: Settings) returns (events: seq<Event>)
    requires OnePromoter(s)
    ensures forall i :: 0 <= i < |events| ==> Closed(events[i])
    ensures Measure(Execute(s, events, c), c) == 0
    decreases Measure(s, c)
  {
    if Measure(s, c) == 0 {
      return [];
    }
    var first := NextProgress(s, c);
    EveryRunDrains(s, first, c);
    var more := CanDrain(Execute(s, first, c), c);
    ExecuteFurther(s, first, more, c);
    events := first + more;
  }

  lemma NextProgress(s: Service, c: Settings) returns (events: seq<Event>)
    requires OnePromoter(s) && Measure(s, c) > 0
    ensures forall i :: 0 <= i < |events| ==> Closed(events[i])
    ensures Progress(s, events, c) > 0
  {
    MeasureIsZero(s, c);
    if s.q.hot != [] {
      events := [Pop];
      assert Execute(s, events[..0], c) == s;
    } else if s.inFlight != [] {
      events := [Process(0, None, 0, 0, AllWorks)];
      assert Execute(s, events[..0], c) == s;
    } else {
      var j :| j in s.q.retry;
      var due := DueIsPromoted(s, j, s.q.retry[j], c);
      var read := ReadDue(0, due, s.q.retry[j]);
      events := [read] + [Promote(0)];
      assert events[..1] == [read] && [read][..0] == [];
      assert Execute(s, [read], c) == Step(s, read, c);
    }
  }

  // ---------------------------------------------------------------------------
  // How often one job is popped
  // ---------------------------------------------------------------------------

  function PopWeights(k: key, maxRetries: nat): Weights {
    Weights(j => if Key(j) == k then Left(j, maxRetries) + 1 else 0,
            j => if Key(j) == k then Left(j, maxRetries) else 0,
            j => if Key(j) == k then Left(j, maxRetries) + 1 else 0)
  }

  ghost predicate Pops(s: Service, e: Event, k: key) {
    e.Pop? && s.q.hot != [] && Key(s.q.hot[|s.q.hot| - 1]) == k
  }

  ghost function PopCount(s: Service, events: seq<Event>, c: Settings, k: key): nat {
    if events == [] then 0 else
    var n := |events| - 1;
    PopCount(s, events[..n], c, k) + if Pops(Execute(s, events[..n], c), events[n], k) then 1 else 0
  }

  lemma PopStep(s: Service, e: Event, c: Settings, k: key)
    requires OnePromoter(s) && Closed(e)
    ensures Weight(Step(s, e, c), PopWeights(k, c.maxRetries)) + (if Pops(s, e, k) then 1 else 0)
            <= Weight(s, PopWeights(k, c.maxRetries))
  {
    var w := PopWeights(k, c.maxRetries);
    if Pops(s, e, k) {
      PopWeight(s, c, w);
    } else {
      assert Descending(w, c.maxRetries);
      StepDescends(s, e, c, w);
    }
  }

  lemma {:induction false} PopsBounded(s: Service, events: seq<Event>, c: Settings, k: key)
    requires OnePromoter(s) && forall i :: 0 <= i < |events| ==> Closed(events[i])
    ensures PopCount(s, events, c, k) + Weight(Execute(s, events, c), PopWeights(k, c.maxRetries))
            <= Weight(s, PopWeights(k, c.maxRetries))
  {
    if events != [] {
      var n := |events| - 1;
      PopsBounded(s, events[..n], c, k);
      EveryRunDrains(s, events[..n], c);
      PopStep(Execute(s, events[..n], c), events[n], c, k);
    }
  }

  /** A job that has just been matched, alone with its key, is popped at most MAX_RETRIES + 2 times. */
  lemma OneJobPops(s: Service, events: seq<Event>, c: Settings, i: nat)
    requires OnePromoter(s) && forall n :: 0 <= n < |events| ==> Closed(events[n])
    requires i < |s.q.hot| && s.q.hot[i].retryCount == 0
    requires forall n :: 0 <= n < |s.q.hot| && n != i ==> Key(s.q.hot[n]) != Key(s.q.hot[i])
    requires !Holds(s.inFlight, Key(s.q.hot[i])) && !Scheduled(s.q.retry, Key(s.q.hot[i]))
    ensures PopCount(s, events, c, Key(s.q.hot[i])) <= c.maxRetries + 2
  {
    hide Execute, PopCount, SumSeq, SumSet;
    var j := s.q.hot[i];
    var w := PopWeights(Key(j), c.maxRetries);
    PopsBounded(s, events, c, Key(j));
    SumSeqWithout(s.q.hot, i, w.hot);
    forall n | 0 <= n < |Without(s.q.hot, i)| ensures w.hot(Without(s.q.hot, i)[n]) == 0 {
      assert Without(s.q.hot, i)[n] == s.q.hot[if n < i then n else n + 1];
    }
    SumSeqZero(Without(s.q.hot, i), w.hot);
    SumSeqZero(s.inFlight, w.flight);
    SumSetZero(s.q.retry.Keys, w.retry);
  }

  lemma {:induction false} SumSeqZero(jobs: seq<Job>, f: Job -> nat)
    requires forall n :: 0 <= n < |jobs| ==> f(jobs[n]) == 0
    ensures SumSeq(jobs, f) == 0
  {
    if jobs != [] {
      SumSeqZero(jobs[..|jobs| - 1], f);
    }
  }

  lemma {:induction false} SumSetZero(jobs: set<Job>, f: Job -> nat)
    requires forall j :: j in jobs ==> f(j) == 0
    ensures SumSet(jobs, f) == 0
  {
    if jobs != {} {
      var j :| j in jobs;
      SumSetRemove(jobs, j, f);
      SumSetZero(jobs - {j}, f);
    }
  }
}
