/** The bounded retry used by commit-with-retry and by lock-with-retry: the
    attempt numbered `retry` is made, and while it fails with the retryable
    condition and fewer than `MaxRetries` retries have been made, the next one
    is made. */
module Retry {
  import opened JsValues
  import opened Engine

  /** `writeConflictRetries`: retries after the first attempt. */
  const MaxRetries: nat := 20

  /** The number of the attempt on which a retry loop that is at attempt
      `retry` stops, when `retryable(k)` says whether attempt `k` fails
      with the retryable condition. */
  function LastAttempt(retryable: nat -> bool, retry: nat): (last: nat)
    requires retry <= MaxRetries
    ensures retry <= last <= MaxRetries
    ensures forall k :: retry <= k < last ==> retryable(k)
    ensures last < MaxRetries ==> !retryable(last)
    decreases MaxRetries - retry
  {
    if retryable(retry) && retry < MaxRetries then LastAttempt(retryable, retry + 1) else retry
  }

  /** The three facts above pin the stopping attempt down. */
  lemma LastAttemptUnique(retryable: nat -> bool, retry: nat, last: nat)
    requires retry <= last <= MaxRetries
    requires forall k :: retry <= k < last ==> retryable(k)
    requires last < MaxRetries ==> !retryable(last)
    ensures LastAttempt(retryable, retry) == last
  {
  }

  predicate IsUnknownCommitResult(o: Outcome) {
    o == Failed(UnknownTransactionCommitResult)
  }

  /** Attempt `k` of a commit retry fails with `UnknownTransactionCommitResult`. */
  function CommitRetryable(oracle: nat -> Outcome): nat -> bool {
    (k: nat) => IsUnknownCommitResult(oracle(k))
  }

  /** The number of `commitTransaction` calls `_commitWithRetry` makes. */
  function CommitAttempts(oracle: nat -> Outcome): nat {
    LastAttempt(CommitRetryable(oracle), 0) + 1
  }

  /** The error `_commitWithRetry` throws, if any: that of its last attempt. */
  function CommitError(oracle: nat -> Outcome): Option<EngineError> {
    match oracle(CommitAttempts(oracle) - 1)
    case Ok => None
    case Failed(e) => Some(e)
  }

  /** What `_commitWithRetry` promises: only `UnknownTransactionCommitResult`
      leads to another attempt, at most `MaxRetries` retries are made, the
      error thrown is that of the last attempt, and any other error ends the
      loop at once. */
  lemma CommitRetryContract(oracle: nat -> Outcome)
    ensures 1 <= CommitAttempts(oracle) <= MaxRetries + 1
    ensures forall k :: 0 <= k < CommitAttempts(oracle) - 1 ==> IsUnknownCommitResult(oracle(k))
    ensures CommitError(oracle).None? <==> oracle(CommitAttempts(oracle) - 1) == Ok
    ensures CommitError(oracle).Some? ==> oracle(CommitAttempts(oracle) - 1) == Failed(CommitError(oracle).value)
    ensures CommitError(oracle) == Some(UnknownTransactionCommitResult) ==> CommitAttempts(oracle) == MaxRetries + 1
  {
    var last := LastAttempt(CommitRetryable(oracle), 0);
    forall k | 0 <= k < last ensures IsUnknownCommitResult(oracle(k)) {
      assert CommitRetryable(oracle)(k);
    }
    if last < MaxRetries {
      assert !CommitRetryable(oracle)(last);
    }
  }

  /** `_commitWithRetry(session)`: commit attempt `k` has outcome `oracle(k)`.
      Returns the error that is thrown, if any. */
  method CommitWithRetry(session: EngineSession, oracle: nat -> Outcome) returns (err: Option<EngineError>)
    modifies session
    ensures err == CommitError(oracle)
    ensures session.calls == old(session.calls) + Repeat([CommitCall], CommitAttempts(oracle))
    ensures session.inTransaction == (old(session.inTransaction) && err.Some?)
    ensures session.ended == old(session.ended)
  {
    ghost var R := CommitRetryable(oracle);
    ghost var before := session.calls;
    var retry: nat := 0;
    var outcome := oracle(0);
    session.CommitTransaction(outcome);
    while IsUnknownCommitResult(outcome) && retry < MaxRetries
      invariant retry <= MaxRetries && outcome == oracle(retry)
      invariant session.calls == before + Repeat([CommitCall], retry + 1)
      invariant session.inTransaction == (old(session.inTransaction) && outcome.Failed?)
      invariant session.ended == old(session.ended)
      invariant LastAttempt(R, retry) == LastAttempt(R, 0)
      decreases MaxRetries - retry
    {
      assert R(retry);
      retry := retry + 1;
      outcome := oracle(retry);
      session.CommitTransaction(outcome);
      assert session.calls == before + (Repeat([CommitCall], retry) + [CommitCall]);
    }
    assert !R(retry) || retry == MaxRetries;
    assert CommitAttempts(oracle) == retry + 1;
    assert session.calls == before + Repeat([CommitCall], CommitAttempts(oracle));
    err := if outcome.Ok? then None else Some(outcome.error);
  }
}
