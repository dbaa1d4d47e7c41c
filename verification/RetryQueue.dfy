/** The two Redis structures of the ledger: the hot list and the sorted set of retries. */
module RetryQueue {
  import opened ByteStrings
  import opened Ledger

  /** The head of `hot` is the left end, where LPUSH adds; BRPOP takes the last element. A sorted set
      holds each payload once, with the score at which it is due. */
  datatype Queues = Queues(hot: seq<Job>, retry: map<Job, int>)

  function PushedHot(q: Queues, job: Job): Queues {
    q.(hot := [job] + q.hot)
  }

  /** The job as it is scheduled again. */
  function Again(job: Job): Job {
    job.(retryCount := job.retryCount + 1)
  }

  function PushedRetry(q: Queues, job: Job, score: int): Queues {
    q.(retry := q.retry[Again(job) := score])
  }

  /** LPUSH and ZREM for every payload, as one Redis transaction. */
  function Moved(q: Queues, due: seq<Job>): Queues {
    if due == [] then q else
    var n := |due| - 1;
    var m := Moved(q, due[..n]);
    Queues([due[n]] + m.hot, m.retry - {due[n]})
  }

  /** What a range read by score returns: the due payloads, each once. */
  ghost predicate IsRange(due: seq<Job>, retry: map<Job, int>, now: int) {
    && (forall i, j :: 0 <= i < j < |due| ==> due[i] != due[j])
    && forall p :: p in due <==> p in retry && retry[p] <= now
  }

  /** A job in the hands of the processor. */
  class LedgerJob {
    const txid: string
    const invoice: nat
    const address: string
    const amount: nat
    const coin: string
    const merchant: nat
    var confirmations: int
    var retryCount: nat

    function Payload(): Job
      reads this
    {
      Job(txid, invoice, address, amount, coin, merchant, confirmations, retryCount)
    }

    /** `from_json`. */
    constructor (payload: Job)
      ensures Payload() == payload
    {
      txid, invoice, address, amount := payload.txid, payload.invoice, payload.address, payload.amount;
      coin, merchant := payload.coin, payload.merchant;
      confirmations, retryCount := payload.confirmations, payload.retryCount;
    }
  }

  class LedgerQueue {
    var hot: seq<Job>
    var retry: map<Job, int>
    const retryDelay: int

    function View(): Queues
      reads this
    {
      Queues(hot, retry)
    }

    constructor (retryDelay: int)
      ensures View() == Queues([], map[]) && this.retryDelay == retryDelay
    {
      hot, retry := [], map[];
      this.retryDelay := retryDelay;
    }

    /** BRPOP; `None` when the timeout expires. */
    method Pop() returns (job: Option<LedgerJob>)
      modifies this`hot
      ensures old(hot) == [] ==> job.None? && hot == []
      ensures old(hot) != [] ==> job.Some? && fresh(job.value) && old(hot) == hot + [job.value.Payload()]
    {
      if hot == [] {
        return None;
      }
      var payload := hot[|hot| - 1];
      hot := hot[..|hot| - 1];
      var j := new LedgerJob(payload);
      return Some(j);
    }

    method PushHot(job: LedgerJob)
      modifies this`hot
      ensures View() == PushedHot(old(View()), job.Payload())
    {
      hot := [job.Payload()] + hot;
    }

    method PushRetry(job: LedgerJob, now: int)
      modifies this`retry, job
      ensures View() == PushedRetry(old(View()), old(job.Payload()), now + retryDelay)
      ensures job.Payload() == Again(old(job.Payload()))
    {
      job.retryCount := job.retryCount + 1;
      var score := now + retryDelay;
      retry := retry[job.Payload() := score];
    }

    /** `promote_due_retries` after its range read: `due` may be stale by the time of the pipeline. */
    method PromoteDueRetries(due: seq<Job>) returns (promoted: nat)
      modifies this
      ensures View() == Moved(old(View()), due) && promoted == |due|
    {
      if due == [] {
        return 0;
      }
      for i := 0 to |due|
        invariant View() == Moved(old(View()), due[..i])
      {
        assert due[..i + 1][..i] == due[..i];
        hot := [due[i]] + hot;
        retry := retry - {due[i]};
      }
      assert due[..|due|] == due;
      return |due|;
    }
  }

  // ---------------------------------------------------------------------------
  // What the pipeline moves
  // ---------------------------------------------------------------------------

  lemma {:induction false} MovedEntries(q: Queues, due: seq<Job>)
    ensures forall p :: p in due || p in q.hot ==> p in Moved(q, due).hot
    ensures forall p :: p in Moved(q, due).hot ==> p in due || p in q.hot
    ensures forall p :: p in Moved(q, due).retry <==> p in q.retry && p !in due
    ensures forall p :: p in Moved(q, due).retry ==> Moved(q, due).retry[p] == q.retry[p]
  {
    if due != [] {
      var n := |due| - 1;
      MovedEntries(q, due[..n]);
      assert due == due[..n] + [due[n]];
    }
  }
}
