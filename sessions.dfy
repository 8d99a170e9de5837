/** The process-wide session registry and the transaction lifecycle built on it. */
module Sessions {
  import opened JsValues
  import opened Engine
  import opened Exceptions
  import opened Retry
  import opened Filters
  import opened HookContext

  /** A registry entry `{id, counter, session}`. */
  datatype Entry = Entry(id: string, counter: int, session: EngineSession)

  const SessionMissing := "getSessionObject: Session doesn't exist"
  const ReuseMissing := "resuseSession: Session doesn't exist"

  /** The engine calls `endSession` makes on a present session. */
  function TeardownCalls(inTransaction: bool): seq<Call> {
    (if inTransaction then [AbortCall] else []) + [EndSessionCall]
  }

  /** The engine calls `endSessionAndCommitTransaction` makes once the counter
      reaches 0: the commits, if a transaction is active, then the teardown;
      a failed commit leaves the transaction to be aborted. */
  function FinalCalls(inTransaction: bool, oracle: nat -> Outcome): seq<Call> {
    if inTransaction then
      Repeat([CommitCall], CommitAttempts(oracle)) + TeardownCalls(CommitError(oracle).Some?)
    else
      TeardownCalls(false)
  }

  /** The error `endSessionAndCommitTransaction` rethrows once the counter reaches 0. */
  function FinalError(inTransaction: bool, oracle: nat -> Outcome): Option<Error> {
    if inTransaction && CommitError(oracle).Some? then Some(EngineFailure(CommitError(oracle).value)) else None
  }

  /** Commits happen iff the session was in a transaction, and every path
      ends the engine session last. */
  lemma FinalCallsShape(inTransaction: bool, oracle: nat -> Outcome)
    ensures CommitCall in FinalCalls(inTransaction, oracle) <==> inTransaction
    ensures |FinalCalls(inTransaction, oracle)| > 0
    ensures FinalCalls(inTransaction, oracle)[|FinalCalls(inTransaction, oracle)| - 1] == EndSessionCall
    ensures AbortCall in FinalCalls(inTransaction, oracle) <==> FinalError(inTransaction, oracle).Some?
  {
    RepeatMembers([CommitCall], CommitAttempts(oracle), CommitCall);
    RepeatMembers([CommitCall], CommitAttempts(oracle), AbortCall);
    CommitRetryContract(oracle);
  }

  /** The outcome of one lock attempt once the transaction step has run and
      the targets are known: the `updateOne` round on the query targets, then
      the `findOneAndUpdate` round on the model target, whose first result's
      `value` is returned, or `{}` when there is no model target. */
  function LockWrites(fromQuery: seq<FilterQuery>, fromModel: seq<FilterQuery>, oracle: LockOracle, k: nat): (r: Result<Option<Doc>>)
    ensures r.Success? <==> (|fromQuery| == 0 || oracle.update(k).Ok?) && (fromModel == [] || oracle.find(k).Locked?)
    ensures |fromQuery| > 0 && oracle.update(k).Failed? ==> r == Failure(EngineFailure(oracle.update(k).error))
    ensures (|fromQuery| == 0 || oracle.update(k).Ok?) && fromModel != [] && oracle.find(k).LockFailed? ==>
      r == Failure(EngineFailure(oracle.find(k).error))
    ensures fromModel == [] && r.Success? ==> r.value == Some(map[])
    ensures fromModel != [] && r.Success? ==> oracle.find(k) == Locked(r.value)
  {
    if |fromQuery| > 0 && oracle.update(k).Failed? then Failure(EngineFailure(oracle.update(k).error))
    else if |fromModel| == 0 then Success(Some(map[]))
    else
      match oracle.find(k)
      case Locked(previous) => Success(previous)
      case LockFailed(e) => Failure(EngineFailure(e))
  }

  /** Where the lock writes of attempt `k` get their outcomes from. */
  datatype LockOracle = LockOracle(update: nat -> Outcome, find: nat -> LockOutcome)

  /** The outcome of lock attempt `k` for a present session. */
  function LockAttemptResult(ctx: Context, collections: Option<seq<CollectionSpec>>, oracle: LockOracle, k: nat): Result<Option<Doc>> {
    match FromQuery(collections, ctx.query)
    case Failure(err) => Failure(err)
    case Success(fromQuery) => LockWrites(fromQuery, FromModel(ctx.service, ctx.query, ctx.id), oracle, k)
  }

  predicate IsWriteConflict(r: Result<Option<Doc>>) {
    r == Failure(EngineFailure(WriteConflict))
  }

  function LockRetryable(ctx: Context, collections: Option<seq<CollectionSpec>>, oracle: LockOracle): nat -> bool {
    (k: nat) => IsWriteConflict(LockAttemptResult(ctx, collections, oracle, k))
  }

  /** The number of retries `startGetAndLockTransaction` makes for a present session. */
  function LockRetries(ctx: Context, collections: Option<seq<CollectionSpec>>, oracle: LockOracle): nat {
    LastAttempt(LockRetryable(ctx, collections, oracle), 0)
  }

  /** The engine calls of a lock with `retries` retries: at nesting depth 1
      each attempt (re)starts the transaction, aborting a stale one first,
      and each retry aborts it; deeper, only the retries' aborts happen. */
  function LockCalls(counter: int, inTransaction: bool, retries: nat): seq<Call> {
    if counter == 1 then
      (if inTransaction then [AbortCall] else []) + [StartTransactionCall]
        + Repeat([AbortCall, StartTransactionCall], retries)
    else
      Repeat([AbortCall], retries)
  }

  /** Whether the engine session is in a transaction after such a lock. */
  function LockInTransaction(counter: int, inTransaction: bool, retries: nat): bool {
    if counter == 1 then true else inTransaction && retries == 0
  }

  /** A retry's abort followed by the next attempt's transaction step extends
      the calls and the transaction state of a lock by one retry. */
  lemma LockRetryStep(counter: int, inTransaction: bool, retries: nat)
    ensures LockCalls(counter, inTransaction, retries) + ([AbortCall] + LockCalls(counter, false, 0))
         == LockCalls(counter, inTransaction, retries + 1)
    ensures LockInTransaction(counter, false, 0) == LockInTransaction(counter, inTransaction, retries + 1)
  {
  }

  /** A lock at nesting depth 1 always leaves a transaction open, started
      once more for every retry. */
  lemma {:induction false} OutermostLockRestarts(inTransaction: bool, retries: nat)
    ensures LockInTransaction(1, inTransaction, retries)
    ensures var calls := LockCalls(1, inTransaction, retries);
      |calls| == (if inTransaction then 1 else 0) + 1 + 2 * retries
      && calls[|calls| - 1] == StartTransactionCall
  {
    RepeatLength([AbortCall, StartTransactionCall], retries);
  }

  /** A lock retry below nesting depth 1 aborts the enclosing transaction
      and never starts a new one. */
  lemma NestedLockRetryDoesNotRestart(counter: int, inTransaction: bool, retries: nat)
    requires counter != 1 && retries > 0
    ensures !LockInTransaction(counter, inTransaction, retries)
    ensures StartTransactionCall !in LockCalls(counter, inTransaction, retries)
    ensures AbortCall in LockCalls(counter, inTransaction, retries)
  {
    RepeatMembers([AbortCall], retries, StartTransactionCall);
    RepeatMembers([AbortCall], retries, AbortCall);
  }

  /** Only a write conflict leads to a lock retry, at most `MaxRetries` are
      made, and the conflict is thrown only when they are used up. */
  lemma LockRetryContract(ctx: Context, collections: Option<seq<CollectionSpec>>, oracle: LockOracle)
    ensures LockRetries(ctx, collections, oracle) <= MaxRetries
    ensures forall k :: 0 <= k < LockRetries(ctx, collections, oracle) ==>
      IsWriteConflict(LockAttemptResult(ctx, collections, oracle, k))
    ensures IsWriteConflict(LockAttemptResult(ctx, collections, oracle, LockRetries(ctx, collections, oracle)))
      ==> LockRetries(ctx, collections, oracle) == MaxRetries
  {
    var R := LockRetryable(ctx, collections, oracle);
    var n := LastAttempt(R, 0);
    forall k | 0 <= k < n ensures IsWriteConflict(LockAttemptResult(ctx, collections, oracle, k)) {
      assert R(k);
    }
    if n < MaxRetries {
      assert !R(n);
    }
  }

  class Registry {
    var sessions: map<string, Entry>

    /** Every entry is filed under its own id and held by at least one caller. */
    ghost predicate Valid()
      reads this
    {
      && (forall id | id in sessions :: sessions[id].id == id && sessions[id].counter >= 1)
      && OwnSessions()
    }

    /** Each entry owns its engine session: no two entries share one. */
    ghost predicate OwnSessions()
      reads this
    {
      forall a, b | a in sessions && b in sessions && a != b :: sessions[a].session != sessions[b].session
    }

    /** As `Valid`, except that the entry of `sessionId` may have dropped to 0. */
    ghost predicate ValidExcept(sessionId: Option<string>)
      reads this
    {
      && (forall id | id in sessions :: sessions[id].id == id && (sessions[id].counter >= 1 || sessionId == Some(id)))
      && OwnSessions()
    }

    constructor ()
      ensures Valid() && sessions == map[]
    {
      sessions := map[];
    }

    predicate Present(sessionId: Option<string>)
      reads this
    {
      sessionId.Some? && sessionId.value in sessions
    }

    /** The engine session registered under `sessionId`, if any, as a frame. */
    function EngineSessionOf(sessionId: Option<string>): set<EngineSession>
      reads this
    {
      if Present(sessionId) then {sessions[sessionId.value].session} else {}
    }

    /** `getSessionObject`: the entry, or `TransactionAborted` when absent. */
    function GetSessionObject(sessionId: Option<string>): (r: Result<Entry>)
      reads this
      ensures r.Success? <==> Present(sessionId)
      ensures r.Success? ==> r.value == sessions[sessionId.value]
      ensures r.Failure? ==> r.error == Aborted(SessionMissing, sessionId)
    {
      if Present(sessionId) then Success(sessions[sessionId.value]) else Failure(Aborted(SessionMissing, sessionId))
    }

    /** `getSession`: the engine session of the entry. */
    function GetSession(sessionId: Option<string>): (r: Result<EngineSession>)
      reads this
      ensures r.Success? <==> Present(sessionId)
      ensures r.Success? ==> r.value == sessions[sessionId.value].session
      ensures r.Failure? ==> r.error == Aborted(SessionMissing, sessionId)
    {
      match GetSessionObject(sessionId)
      case Success(e) => Success(e.session)
      case Failure(err) => Failure(err)
    }

    /** `getSessionCounter`: the nesting depth of a present session. */
    function GetSessionCounter(sessionId: Option<string>): (r: Result<int>)
      reads this
      ensures r.Success? <==> Present(sessionId)
      ensures r.Success? ==> r.value == sessions[sessionId.value].counter
      ensures Valid() && r.Success? ==> r.value >= 1
      ensures r.Failure? ==> r.error == Aborted(SessionMissing, sessionId)
    {
      match GetSessionObject(sessionId)
      case Success(e) => Success(e.counter)
      case Failure(err) => Failure(err)
    }

    /** `startSession`: `newId` is the id `nanoid()` generates. */
    method StartSession(newId: string) returns (id: string)
      requires Valid()
      requires newId != "" && newId !in sessions
      modifies this
      ensures Valid()
      ensures id == newId && id !in old(sessions) && id in sessions
      ensures sessions == old(sessions)[id := Entry(id, 1, sessions[id].session)]
      ensures fresh(sessions[id].session)
      ensures var s := sessions[id].session; !s.inTransaction && !s.ended && s.calls == []
    {
      id := newId;
      var session := new EngineSession();
      sessions := sessions[id := Entry(id, 1, session)];
    }

    /** `reuseSession`: one more caller holds the session. */
    method ReuseSession(sessionId: string) returns (r: Result<string>)
      requires Valid()
      modifies this
      ensures Valid()
      ensures sessionId !in old(sessions) ==>
        r == Failure(Aborted(ReuseMissing, Some(sessionId))) && sessions == old(sessions)
      ensures sessionId in old(sessions) ==>
        r == Success(sessionId)
        && sessions == old(sessions)[sessionId := old(sessions)[sessionId].(counter := old(sessions)[sessionId].counter + 1)]
    {
      if sessionId !in sessions {
        return Failure(Aborted(ReuseMissing, Some(sessionId)));
      }
      sessions := sessions[sessionId := sessions[sessionId].(counter := sessions[sessionId].counter + 1)];
      r := Success(sessionId);
    }

    /** `_startTransaction`: only the outermost holder starts the transaction,
        aborting a transaction that is still active first. */
    method StartTransaction(sessionId: Option<string>) returns (err: Option<Error>)
      modifies EngineSessionOf(sessionId)
      ensures !Present(sessionId) ==> err == Some(Aborted(SessionMissing, sessionId))
      ensures Present(sessionId) ==>
        var e := sessions[sessionId.value];
        err.None?
        && e.session.inTransaction == LockInTransaction(e.counter, old(e.session.inTransaction), 0)
        && e.session.calls == old(e.session.calls) + LockCalls(e.counter, old(e.session.inTransaction), 0)
        && e.session.ended == old(e.session.ended)
    {
      var counter := GetSessionCounter(sessionId);
      if counter.Failure? {
        return Some(counter.error);
      }
      if counter.value == 1 {
        var session := sessions[sessionId.value].session;
        if session.inTransaction {
          session.AbortTransaction();
        }
        session.StartTransaction();
      }
      err := None;
    }

    /** `endSession(params)`: aborts an active transaction, ends the engine
        session, and forgets the entry and `params.sessionId`. */
    method EndSession(ctx: Context) returns (err: Option<Error>)
      requires ValidExcept(ctx.sessionId)
      modifies this, ctx`sessionId, EngineSessionOf(ctx.sessionId)
      ensures Valid()
      ensures !old(Present(ctx.sessionId)) ==>
        err == Some(Aborted(SessionMissing, ctx.sessionId))
        && ctx.sessionId == old(ctx.sessionId) && sessions == old(sessions)
      ensures old(Present(ctx.sessionId)) ==>
        var id := old(ctx.sessionId).value;
        var s := old(sessions)[id].session;
        err.None? && ctx.sessionId.None?
        && sessions == old(sessions) - {id}
        && s.ended && !s.inTransaction
        && s.calls == old(s.calls) + TeardownCalls(old(s.inTransaction))
    {
      var session := GetSession(ctx.sessionId);
      if session.Failure? {
        return Some(session.error);
      }
      var id := ctx.sessionId.value;
      if session.value.inTransaction {
        session.value.AbortTransaction();
      }
      session.value.EndSession();
      sessions := sessions - {id};
      ctx.sessionId := None;
      err := None;
    }

    /** `endSessionAndCommitTransaction(context)`: one holder fewer; the last
        one commits an active transaction (with retry) and tears the session
        down, rethrowing a commit error after the teardown. Without a session
        the counter update itself fails. */
    method EndSessionAndCommitTransaction(ctx: Context, oracle: nat -> Outcome) returns (err: Option<Error>)
      requires Valid()
      modifies this, ctx`sessionId, EngineSessionOf(ctx.sessionId)
      ensures Valid()
      ensures !old(Present(ctx.sessionId)) ==>
        err == Some(TypeError) && ctx.sessionId == old(ctx.sessionId) && sessions == old(sessions)
      ensures old(Present(ctx.sessionId)) ==>
        var id := old(ctx.sessionId).value;
        var e := old(sessions)[id];
        if e.counter > 1 then
          err.None? && ctx.sessionId == old(ctx.sessionId)
          && sessions == old(sessions)[id := e.(counter := e.counter - 1)]
          && e.session.calls == old(e.session.calls) && e.session.inTransaction == old(e.session.inTransaction)
          && e.session.ended == old(e.session.ended)
        else
          err == FinalError(old(e.session.inTransaction), oracle) && ctx.sessionId.None?
          && sessions == old(sessions) - {id}
          && e.session.ended && !e.session.inTransaction
          && e.session.calls == old(e.session.calls) + FinalCalls(old(e.session.inTransaction), oracle)
    {
      if !Present(ctx.sessionId) {
        return Some(TypeError);
      }
      var id := ctx.sessionId.value;
      sessions := sessions[id := sessions[id].(counter := sessions[id].counter - 1)];
      if sessions[id].counter == 0 {
        err := CommitAndEndSession(ctx, oracle);
      } else {
        err := None;
      }
    }

    /** The last holder's part of `endSessionAndCommitTransaction`: commit an
        active transaction with retry, then end the session whatever the
        commit did, rethrowing a commit error. */
    method CommitAndEndSession(ctx: Context, oracle: nat -> Outcome) returns (err: Option<Error>)
      requires ValidExcept(ctx.sessionId) && Present(ctx.sessionId)
      modifies this, ctx`sessionId, EngineSessionOf(ctx.sessionId)
      ensures Valid()
      ensures var id := old(ctx.sessionId).value;
        var s := old(sessions)[id].session;
        err == FinalError(old(s.inTransaction), oracle) && ctx.sessionId.None?
        && sessions == old(sessions) - {id}
        && s.ended && !s.inTransaction
        && s.calls == old(s.calls) + FinalCalls(old(s.inTransaction), oracle)
    {
      var session := sessions[ctx.sessionId.value].session;
      if session.inTransaction {
        var commitError := CommitWithRetry(session, oracle);
        assert old(session.calls) + Repeat([CommitCall], CommitAttempts(oracle)) + TeardownCalls(commitError.Some?)
            == old(session.calls) + (Repeat([CommitCall], CommitAttempts(oracle)) + TeardownCalls(commitError.Some?));
        var _ := EndSession(ctx);
        if commitError.Some? {
          return Some(EngineFailure(commitError.value));
        }
      } else {
        var _ := EndSession(ctx);
      }
      err := None;
    }

    /** One pass of the `try` block of `startGetAndLockTransaction`. */
    method LockAttempt(ctx: Context, collections: Option<seq<CollectionSpec>>, oracle: LockOracle, retry: nat)
      returns (r: Result<Option<Doc>>)
      modifies EngineSessionOf(ctx.sessionId)
      ensures !Present(ctx.sessionId) ==> r == Failure(Aborted(SessionMissing, ctx.sessionId))
      ensures Present(ctx.sessionId) ==>
        var e := sessions[ctx.sessionId.value];
        r == LockAttemptResult(ctx, collections, oracle, retry)
        && e.session.inTransaction == LockInTransaction(e.counter, old(e.session.inTransaction), 0)
        && e.session.calls == old(e.session.calls) + LockCalls(e.counter, old(e.session.inTransaction), 0)
        && e.session.ended == old(e.session.ended)
    {
      var err := StartTransaction(ctx.sessionId);
      if err.Some? {
        return Failure(err.value);
      }
      var fromQuery := FromQuery(collections, ctx.query);
      if fromQuery.Failure? {
        return Failure(fromQuery.error);
      }
      var fromModel := FromModel(ctx.service, ctx.query, ctx.id);
      r := LockWrites(fromQuery.value, fromModel, oracle, retry);
    }

    /** The write-conflict path of the `catch` block: abort the transaction,
        then make attempt number `retry`, which extends a lock of `retry - 1`
        retries to one of `retry` retries. */
    method RetryAfterConflict(ctx: Context, collections: Option<seq<CollectionSpec>>, oracle: LockOracle, retry: nat,
                              session: EngineSession, counter: int, ghost calls0: seq<Call>, ghost inTransaction0: bool)
      returns (r: Result<Option<Doc>>)
      requires Present(ctx.sessionId) && retry > 0
      requires sessions[ctx.sessionId.value].session == session && sessions[ctx.sessionId.value].counter == counter
      requires session.calls == calls0 + LockCalls(counter, inTransaction0, retry - 1)
      modifies session
      ensures r == LockAttemptResult(ctx, collections, oracle, retry)
      ensures session.inTransaction == LockInTransaction(counter, inTransaction0, retry)
      ensures session.calls == calls0 + LockCalls(counter, inTransaction0, retry)
      ensures session.ended == old(session.ended)
    {
      LockRetryStep(counter, inTransaction0, retry - 1);
      assert calls0 + LockCalls(counter, inTransaction0, retry - 1) + ([AbortCall] + LockCalls(counter, false, 0))
          == calls0 + (LockCalls(counter, inTransaction0, retry - 1) + ([AbortCall] + LockCalls(counter, false, 0)));
      session.AbortTransaction();
      ghost var aborted := session.calls;
      r := LockAttempt(ctx, collections, oracle, retry);
      assert session.calls == aborted + LockCalls(counter, false, 0);
      assert session.calls == calls0 + LockCalls(counter, inTransaction0, retry - 1) + ([AbortCall] + LockCalls(counter, false, 0));
    }

    /** What `startGetAndLockTransaction` returns or throws for `context`. */
    function LockResult(ctx: Context, collections: Option<seq<CollectionSpec>>,
                        oracle: LockOracle): (r: Result<Option<Doc>>)
      reads this, ctx
      ensures !Present(ctx.sessionId) ==> r == Failure(Aborted(SessionMissing, ctx.sessionId))
      ensures Present(ctx.sessionId) && r.Failure? ==> r.error.EngineFailure? || r.error == TypeError
      ensures r == Failure(EngineFailure(WriteConflict)) ==> LockRetries(ctx, collections, oracle) == MaxRetries
    {
      if Present(ctx.sessionId) then
        LockRetryContract(ctx, collections, oracle);
        LockAttemptResult(ctx, collections, oracle, LockRetries(ctx, collections, oracle))
      else
        Failure(Aborted(SessionMissing, ctx.sessionId))
    }

    /** `startGetAndLockTransaction(context, collections)`: enters the
        transaction and writes a lock token to every target, retrying the
        whole step after aborting the transaction on a write conflict. */
    method StartGetAndLockTransaction(ctx: Context, collections: Option<seq<CollectionSpec>>, oracle: LockOracle)
      returns (r: Result<Option<Doc>>)
      modifies EngineSessionOf(ctx.sessionId)
      ensures r == LockResult(ctx, collections, oracle)
      ensures Present(ctx.sessionId) ==>
        var e := sessions[ctx.sessionId.value];
        var n := LockRetries(ctx, collections, oracle);
        e.session.inTransaction == LockInTransaction(e.counter, old(e.session.inTransaction), n)
        && e.session.calls == old(e.session.calls) + LockCalls(e.counter, old(e.session.inTransaction), n)
        && e.session.ended == old(e.session.ended)
    {
      r := LockAttempt(ctx, collections, oracle, 0);
      if Present(ctx.sessionId) {
        var e := sessions[ctx.sessionId.value];
        r := RetryWhileConflicting(ctx, collections, oracle, r, e.session, e.counter,
                                   old(e.session.calls), old(e.session.inTransaction));
      }
    }

    /** The retries of `startGetAndLockTransaction` after its first attempt,
        for the engine session `session` at nesting depth `counter`, whose
        calls were `calls0` and transaction state `inTransaction0` before
        that attempt. */
    method RetryWhileConflicting(ctx: Context, collections: Option<seq<CollectionSpec>>, oracle: LockOracle,
                                 first: Result<Option<Doc>>, session: EngineSession, counter: int,
                                 ghost calls0: seq<Call>, ghost inTransaction0: bool)
      returns (r: Result<Option<Doc>>)
      requires Present(ctx.sessionId)
      requires sessions[ctx.sessionId.value].session == session && sessions[ctx.sessionId.value].counter == counter
      requires first == LockAttemptResult(ctx, collections, oracle, 0)
      requires session.inTransaction == LockInTransaction(counter, inTransaction0, 0)
      requires session.calls == calls0 + LockCalls(counter, inTransaction0, 0)
      modifies session
      ensures var n := LockRetries(ctx, collections, oracle);
        r == LockAttemptResult(ctx, collections, oracle, n)
        && session.inTransaction == LockInTransaction(counter, inTransaction0, n)
        && session.calls == calls0 + LockCalls(counter, inTransaction0, n)
        && session.ended == old(session.ended)
    {
      ghost var R := LockRetryable(ctx, collections, oracle);
      var retry: nat := 0;
      r := first;
      while IsWriteConflict(r) && retry < MaxRetries
        invariant retry <= MaxRetries
        invariant r == LockAttemptResult(ctx, collections, oracle, retry)
        invariant session.inTransaction == LockInTransaction(counter, inTransaction0, retry)
        invariant session.calls == calls0 + LockCalls(counter, inTransaction0, retry)
        invariant session.ended == old(session.ended)
        invariant LastAttempt(R, retry) == LastAttempt(R, 0)
        decreases MaxRetries - retry
      {
        assert R(retry);
        retry := retry + 1;
        r := RetryAfterConflict(ctx, collections, oracle, retry, session, counter, calls0, inTransaction0);
      }
      assert !R(retry) || retry == MaxRetries;
    }
  }
}
