/** The storage engine as the session registry sees it: the outcome of each
    commit or lock write, and the calls made on an engine session. */
module Engine {
  import opened JsValues

  /** The error conditions the retry loops tell apart. */
  datatype EngineError =
    | UnknownTransactionCommitResult  // carries that error label
    | WriteConflict                   // codeName 'WriteConflict'
    | OtherEngineError(code: int)

  /** Outcome of one `commitTransaction` or one round of `updateOne` lock writes. */
  datatype Outcome = Ok | Failed(error: EngineError)

  /** Outcome of one round of `findOneAndUpdate` lock writes: the matched
      document as it was before the write (`None` stands for `null`). */
  datatype LockOutcome = Locked(previous: Option<Doc>) | LockFailed(error: EngineError)

  /** A call made on an engine session. */
  datatype Call = StartTransactionCall | CommitCall | AbortCall | EndSessionCall

  /** The engine session object `startSession()` returns, with the calls
      made on it, in order. The outcome of each commit is supplied by the
      caller; the other calls succeed. */
  class EngineSession {
    var inTransaction: bool
    var ended: bool
    var calls: seq<Call>

    constructor ()
      ensures !inTransaction && !ended && calls == []
    {
      inTransaction := false;
      ended := false;
      calls := [];
    }

    method StartTransaction()
      modifies this
      ensures inTransaction && ended == old(ended)
      ensures calls == old(calls) + [StartTransactionCall]
    {
      inTransaction := true;
      calls := calls + [StartTransactionCall];
    }

    method AbortTransaction()
      modifies this
      ensures !inTransaction && ended == old(ended)
      ensures calls == old(calls) + [AbortCall]
    {
      inTransaction := false;
      calls := calls + [AbortCall];
    }

    /** A commit with the given outcome; a failed commit leaves the
        transaction as it was. */
    method CommitTransaction(outcome: Outcome)
      modifies this
      ensures inTransaction == (old(inTransaction) && outcome.Failed?) && ended == old(ended)
      ensures calls == old(calls) + [CommitCall]
    {
      if outcome.Ok? {
        inTransaction := false;
      }
      calls := calls + [CommitCall];
    }

    method EndSession()
      modifies this
      ensures ended && inTransaction == old(inTransaction)
      ensures calls == old(calls) + [EndSessionCall]
    {
      ended := true;
      calls := calls + [EndSessionCall];
    }
  }

  /** `n` copies of `s`, one after another. */
  function Repeat<T>(s: seq<T>, n: nat): seq<T> {
    if n == 0 then [] else Repeat(s, n - 1) + s
  }

  lemma {:induction false} RepeatMembers<T>(s: seq<T>, n: nat, x: T)
    ensures x in Repeat(s, n) <==> n > 0 && x in s
  {
    if n > 0 {
      RepeatMembers(s, n - 1, x);
    }
  }

  lemma {:induction false} RepeatLength<T>(s: seq<T>, n: nat)
    ensures |Repeat(s, n)| == n * |s|
  {
    if n > 0 {
      RepeatLength(s, n - 1);
    }
  }
}
