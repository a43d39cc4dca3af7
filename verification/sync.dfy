/** The flush/retry state machine behind `syncWithDatabase`
    (src/contexts/kanban-context.tsx:125-157) and the page-exit beacon
    (src/contexts/kanban-context.tsx:172-186). The network round trip is
    split into the moment the request leaves (`BeginFlush`) and the moment
    its outcome arrives (`FinishFlush`); anything may happen to the queue in
    between. */
module Sync {
  import opened PendingQueue

  /** `MAX_RETRY_ATTEMPTS` */
  const MaxRetryAttempts: nat := 3

  /** The queue, the `isSyncing` flag and `retryCountRef.current`. */
  datatype SyncState = SyncState(pending: seq<PendingUpdate>, isSyncing: bool, retryCount: nat)

  /** How a batch request ended: an OK response, a non-OK response, or a
      thrown error (network failure). */
  datatype Outcome = Ok | NotOk | Threw

  /** Either the guard skipped the flush, or `batch` was sent and the state
      moved to `state`. */
  datatype FlushStart = Skipped | Sending(batch: seq<PendingUpdate>, state: SyncState)

  /** The state after the outcome arrived, and whether the
      "please refresh" error toast was raised. */
  datatype FlushEnd = FlushEnd(state: SyncState, notified: bool)

  /** The start of `syncWithDatabase`: nothing happens when the queue is empty
      or a flush is in flight; otherwise the whole queue is sent and the
      syncing flag is raised. */
  function BeginFlush(s: SyncState): (r: FlushStart)
    ensures r.Skipped? <==> |s.pending| == 0 || s.isSyncing
    ensures r.Sending? ==> r.batch == s.pending && |r.batch| > 0
    ensures r.Sending? ==> r.state.isSyncing && r.state.pending == s.pending && r.state.retryCount == s.retryCount
  {
    if |s.pending| == 0 || s.isSyncing then Skipped
    else Sending(s.pending, s.(isSyncing := true))
  }

  /** The end of `syncWithDatabase`, applied to the state current when the
      outcome arrives. On OK the queue is replaced by `[]` (including entries
      queued while the request was in flight) and the counter is reset. On a
      non-OK response or a thrown error the queue is kept and the counter
      incremented; reaching `MaxRetryAttempts` raises exactly one toast and
      resets the counter. The syncing flag is cleared on every path. */
  function FinishFlush(s: SyncState, outcome: Outcome): (r: FlushEnd)
    ensures !r.state.isSyncing
    ensures r.state.retryCount < MaxRetryAttempts
    ensures outcome == Ok ==> r.state.pending == [] && r.state.retryCount == 0 && !r.notified
    ensures outcome != Ok ==> r.state.pending == s.pending
    ensures outcome != Ok ==> (r.notified <==> s.retryCount + 1 >= MaxRetryAttempts)
    ensures outcome != Ok && s.retryCount + 1 < MaxRetryAttempts ==> r.state.retryCount == s.retryCount + 1
    ensures r.notified ==> r.state.retryCount == 0
  {
    if outcome == Ok then
      FlushEnd(s.(pending := [], retryCount := 0, isSyncing := false), false)
    else
      var count := s.retryCount + 1;
      if count >= MaxRetryAttempts then
        FlushEnd(s.(retryCount := 0, isSyncing := false), true)
      else
        FlushEnd(s.(retryCount := count, isSyncing := false), false)
  }

  /** One timer tick that sends the queue and fails, with nothing queued in
      between. */
  function FailedAttempt(s: SyncState): (r: FlushEnd)
    requires |s.pending| > 0 && !s.isSyncing
    ensures r.state.pending == s.pending && !r.state.isSyncing
  {
    var start := BeginFlush(s);
    FinishFlush(start.state, NotOk)
  }

  /** `k` failed attempts in a row: the final state and the number of toasts. */
  function FailStreak(s: SyncState, k: nat): (SyncState, nat)
    requires |s.pending| > 0 && !s.isSyncing
    decreases k
  {
    if k == 0 then (s, 0)
    else
      var e := FailedAttempt(s);
      var (last, toasts) := FailStreak(e.state, k - 1);
      (last, toasts + if e.notified then 1 else 0)
  }

  /** From a counter in range, `k` consecutive failures leave the queue as it
      was, raise one toast per `MaxRetryAttempts` failures and leave the
      counter at the remainder: the counter never leaves [0, 2] and every
      third failure in a row notifies exactly once. */
  lemma {:induction false} FailStreakCounts(s: SyncState, k: nat)
    requires |s.pending| > 0 && !s.isSyncing
    requires s.retryCount < MaxRetryAttempts
    ensures FailStreak(s, k).0.pending == s.pending
    ensures !FailStreak(s, k).0.isSyncing
    ensures FailStreak(s, k).0.retryCount == (s.retryCount + k) % MaxRetryAttempts
    ensures FailStreak(s, k).1 == (s.retryCount + k) / MaxRetryAttempts
    decreases k
  {
    if k > 0 {
      var e := FailedAttempt(s);
      FailStreakCounts(e.state, k - 1);
      if e.notified {
        assert s.retryCount == 2 && e.state.retryCount == 0;
        assert (s.retryCount + k) / 3 == 1 + (k - 1) / 3;
        assert (s.retryCount + k) % 3 == (k - 1) % 3;
      } else {
        assert e.state.retryCount == s.retryCount + 1;
      }
    }
  }

  /** Three failures in a row from a fresh counter: exactly one toast, the
      queue unchanged, the counter back at 0. */
  lemma ThreeFailuresNotifyOnce(s: SyncState)
    requires |s.pending| > 0 && !s.isSyncing && s.retryCount == 0
    ensures FailStreak(s, 3).1 == 1
    ensures FailStreak(s, 3).0.pending == s.pending
    ensures FailStreak(s, 3).0.retryCount == 0
  {
    FailStreakCounts(s, 3);
  }

  /** While a flush is in flight a second one is never started: no
      Flushing -> Flushing transition. */
  lemma NoReentrantFlush(s: SyncState)
    requires BeginFlush(s).Sending?
    ensures BeginFlush(BeginFlush(s).state).Skipped?
  {
  }

  /** A success wipes the whole queue as it stands when the response arrives:
      an update queued while the request was in flight, for a task that was
      not in the batch, is dropped without ever being sent. */
  lemma SuccessDropsInFlightUpdate(s: SyncState, u: PendingUpdate)
    requires BeginFlush(s).Sending?
    requires forall i :: 0 <= i < |s.pending| ==> s.pending[i].taskId != u.taskId
    ensures var inFlight := BeginFlush(s).state;
            var queued := inFlight.(pending := Enqueue(inFlight.pending, u));
            && u in queued.pending
            && u !in BeginFlush(s).batch
            && FinishFlush(queued, Ok).state.pending == []
  {
    assert forall v :: v in s.pending ==> v.taskId != u.taskId;
  }

  /** The page-exit handler: when the queue is non-empty, exactly one beacon
      carrying the whole queue is fired; the queue itself is not cleared. */
  function UnloadBeacons(s: SyncState): (sent: seq<seq<PendingUpdate>>)
    ensures |sent| == (if |s.pending| > 0 then 1 else 0)
    ensures forall i :: 0 <= i < |sent| ==> sent[i] == s.pending
  {
    if |s.pending| > 0 then [s.pending] else []
  }
}
