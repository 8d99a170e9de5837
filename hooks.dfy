/** The `start-session` and `load-data` service hooks. */
module Hooks {
  import opened JsValues
  import opened Engine
  import opened Exceptions
  import opened Filters
  import opened HookContext
  import opened Sessions

  /** Whether `params.sessionId` is set: an id is truthy unless empty. */
  predicate IsSet(sessionId: Option<string>) {
    sessionId.Some? && sessionId.value != ""
  }

  /** The hook returned by `start-session`: reuse the session in
      `params.sessionId` when it is set, else start one and store its id
      there. `newId` is the id `nanoid()` generates. */
  method StartSessionHook(reg: Registry, ctx: Context, newId: string) returns (r: Result<Context>)
    requires reg.Valid()
    requires !IsSet(ctx.sessionId) ==> newId != "" && newId !in reg.sessions
    modifies reg, ctx`sessionId
    ensures reg.Valid()
    ensures IsSet(old(ctx.sessionId)) && old(ctx.sessionId).value !in old(reg.sessions) ==>
      r == Failure(Aborted(ReuseMissing, old(ctx.sessionId)))
      && ctx.sessionId == old(ctx.sessionId) && reg.sessions == old(reg.sessions)
    ensures IsSet(old(ctx.sessionId)) && old(ctx.sessionId).value in old(reg.sessions) ==>
      var id := old(ctx.sessionId).value;
      r == Success(ctx) && ctx.sessionId == old(ctx.sessionId)
      && reg.sessions == old(reg.sessions)[id := old(reg.sessions)[id].(counter := old(reg.sessions)[id].counter + 1)]
    ensures !IsSet(old(ctx.sessionId)) ==>
      r == Success(ctx) && ctx.sessionId == Some(newId) && newId in reg.sessions
      && reg.sessions == old(reg.sessions)[newId := Entry(newId, 1, reg.sessions[newId].session)]
      && fresh(reg.sessions[newId].session)
      && !reg.sessions[newId].session.inTransaction && !reg.sessions[newId].session.ended && reg.sessions[newId].session.calls == []
  {
    if IsSet(ctx.sessionId) {
      var reused := reg.ReuseSession(ctx.sessionId.value);
      if reused.Failure? {
        return Failure(reused.error);
      }
    } else {
      var id := reg.StartSession(newId);
      ctx.sessionId := Some(id);
    }
    r := Success(ctx);
  }

  /** The fields `load-data` copies: the keys of the service's database
      schema, then `myLock`, `_id` and `alias`; reading the schema of a
      service that has none is a `TypeError`. */
  function KeysToCopy(service: Option<ServiceOptions>): (r: Option<seq<string>>)
    ensures r.Some? <==> service.Some? && service.value.dbSchemaKeys.Some?
    ensures r.Some? ==>
      (|r.value| >= 3 && r.value[..|r.value| - 3] == service.value.dbSchemaKeys.value
       && r.value[|r.value| - 3..] == ["myLock", "_id", "alias"])
  {
    if service.Some? && service.value.dbSchemaKeys.Some? then
      Some(service.value.dbSchemaKeys.value + ["myLock", "_id", "alias"])
    else
      None
  }

  /** `data` after the copy loop has run over `keys`: each key whose value
      in `db` is truthy is set to that value, in order. */
  function Copied(data: Doc, keys: seq<string>, db: Doc): Doc {
    if keys == [] then data
    else
      var d := Copied(data, keys[..|keys| - 1], db);
      var k := keys[|keys| - 1];
      if Truthy(Get(db, k)) then d[k := db[k]] else d
  }

  /** A field ends up holding the database value exactly when it is one of
      the keys and that value is truthy; every other field keeps its value,
      and no field is added or removed otherwise. */
  lemma {:induction false} CopiedFields(data: Doc, keys: seq<string>, db: Doc)
    ensures Copied(data, keys, db).Keys == data.Keys + (set k | k in keys && Truthy(Get(db, k)))
    ensures forall f ::
      Get(Copied(data, keys, db), f) == (if f in keys && Truthy(Get(db, f)) then Get(db, f) else Get(data, f))
  {
    if keys != [] {
      var init := keys[..|keys| - 1];
      CopiedFields(data, init, db);
      assert keys == init + [keys[|keys| - 1]];
    }
  }

  /** Running the copy loop a second time changes nothing. */
  lemma CopiedIdempotent(data: Doc, keys: seq<string>, db: Doc)
    ensures Copied(Copied(data, keys, db), keys, db) == Copied(data, keys, db)
  {
    var once := Copied(data, keys, db);
    CopiedFields(data, keys, db);
    CopiedFields(once, keys, db);
    forall f | f in once
      ensures Copied(once, keys, db)[f] == once[f]
    {
      assert Get(Copied(once, keys, db), f) == Get(once, f);
    }
  }

  /** The `for...of` loop of `load-data`, writing into `context.data`. */
  method CopyFields(ctx: Context, keys: seq<string>, db: Doc)
    modifies ctx`data
    ensures ctx.data == Copied(old(ctx.data), keys, db)
  {
    for i := 0 to |keys|
      invariant ctx.data == Copied(old(ctx.data), keys[..i], db)
    {
      assert keys[..i + 1][..i] == keys[..i];
      if Truthy(Get(db, keys[i])) {
        ctx.data := ctx.data[keys[i] := db[keys[i]]];
      }
    }
    assert keys[..|keys|] == keys;
  }

  /** The new `context.data`, or the error `load-data` throws, for an
      `update` call whose lock returned `dbData`. */
  function LoadOutcome(data: Doc, dbData: Result<Option<Doc>>, service: Option<ServiceOptions>,
                       id: JsValue, path: string): Result<Doc>
  {
    match dbData
    case Failure(e) => Failure(e)
    case Success(None) => Failure(NotFound(id, path))
    case Success(Some(doc)) =>
      match KeysToCopy(service)
      case None => Failure(TypeError)
      case Some(keys) => Success(Copied(data, keys, doc))
  }

  /** `NotFound` is thrown exactly when the lock finds no document, and
      names the requested id and the service path. */
  lemma NotFoundIffNoDocument(data: Doc, dbData: Result<Option<Doc>>, service: Option<ServiceOptions>,
                              id: JsValue, path: string)
    requires !(dbData.Failure? && dbData.error.NotFound?)
    ensures LoadOutcome(data, dbData, service, id, path).Failure?
      && LoadOutcome(data, dbData, service, id, path).error.NotFound?
      <==> dbData == Success(None)
    ensures LoadOutcome(data, dbData, service, id, path) == Failure(NotFound(id, path)) <==> dbData == Success(None)
  {
  }

  /** Without a model target the lock returns `{}`, which is truthy: no
      `NotFound`, and nothing is copied. */
  lemma EmptyLockCopiesNothing(data: Doc, service: Option<ServiceOptions>, id: JsValue, path: string)
    requires service.Some? && service.value.dbSchemaKeys.Some?
    ensures LoadOutcome(data, Success(Some(map[])), service, id, path) == Success(data)
  {
    var keys := KeysToCopy(service).value;
    CopiedFields(data, keys, map[]);
    var d := Copied(data, keys, map[]);
    assert (set k | k in keys && Truthy(Get(map[], k))) == {};
    forall f | f in d
      ensures d[f] == data[f]
    {
      assert Get(d, f) == Get(data, f);
    }
    assert d.Keys == data.Keys;
    assert d == data;
  }

  /** The hook returned by `load-data`: for `update` calls, lock the targets
      and copy the selected truthy fields of the locked document into
      `context.data`; other calls pass through untouched. */
  method LoadDataHook(reg: Registry, ctx: Context, collections: Option<seq<CollectionSpec>>, oracle: LockOracle)
    returns (r: Result<Context>)
    modifies reg.EngineSessionOf(ctx.sessionId), ctx`data
    ensures ctx.operation != "update" ==>
      r == Success(ctx) && ctx.data == old(ctx.data) && unchanged(reg.EngineSessionOf(ctx.sessionId))
    ensures ctx.operation == "update" ==>
      var out := LoadOutcome(old(ctx.data), reg.LockResult(ctx, collections, oracle),
                             ctx.service, ctx.id, ctx.path);
      (out.Success? ==> r == Success(ctx) && ctx.data == out.value)
      && (out.Failure? ==> r == Failure(out.error) && ctx.data == old(ctx.data))
    ensures ctx.operation == "update" && reg.Present(ctx.sessionId) ==>
      var e := reg.sessions[ctx.sessionId.value];
      var n := LockRetries(ctx, collections, oracle);
      e.session.inTransaction == LockInTransaction(e.counter, old(e.session.inTransaction), n)
      && e.session.calls == old(e.session.calls) + LockCalls(e.counter, old(e.session.inTransaction), n)
      && e.session.ended == old(e.session.ended)
  {
    if ctx.operation != "update" {
      return Success(ctx);
    }
    var dbData := reg.StartGetAndLockTransaction(ctx, collections, oracle);
    if dbData.Failure? {
      return Failure(dbData.error);
    }
    if dbData.value.None? {
      return Failure(NotFound(ctx.id, ctx.path));
    }
    var keys := KeysToCopy(ctx.service);
    if keys.None? {
      return Failure(TypeError);
    }
    CopyFields(ctx, keys.value, dbData.value.value);
    r := Success(ctx);
  }

  /** The nested start/stop scenario of the transaction tests: three
      start-session hooks on one context, then three end-of-session steps,
      reading the counter after each. */
  method NestedStartStop(reg: Registry, ctx: Context, newId: string, oracle: nat -> Outcome)
    returns (counters: seq<Result<int>>)
    requires reg.Valid() && ctx.sessionId.None?
    requires newId != "" && newId !in reg.sessions
    modifies reg, ctx`sessionId
    ensures reg.Valid() && reg.sessions == old(reg.sessions) && ctx.sessionId.None?
    ensures counters == [Success(1), Success(2), Success(3), Success(2), Success(1),
                         Failure(Aborted(SessionMissing, None))]
  {
    var started := NestedStart(reg, ctx, newId);
    var stopped := NestedStop(reg, ctx, oracle);
    counters := started + stopped;
    assert reg.sessions == old(reg.sessions);
  }

  /** The first half of the scenario: the counter reads 1, 2, 3. */
  method NestedStart(reg: Registry, ctx: Context, newId: string) returns (counters: seq<Result<int>>)
    requires reg.Valid() && ctx.sessionId.None?
    requires newId != "" && newId !in reg.sessions
    modifies reg, ctx`sessionId
    ensures reg.Valid() && ctx.sessionId == Some(newId) && newId in reg.sessions
    ensures reg.sessions == old(reg.sessions)[newId := Entry(newId, 3, reg.sessions[newId].session)]
    ensures fresh(reg.sessions[newId].session) && !reg.sessions[newId].session.inTransaction
    ensures counters == [Success(1), Success(2), Success(3)]
  {
    var _ := StartSessionHook(reg, ctx, newId);
    ghost var e := reg.sessions[newId];
    counters := [reg.GetSessionCounter(ctx.sessionId)];
    var _ := StartSessionHook(reg, ctx, newId);
    counters := counters + [reg.GetSessionCounter(ctx.sessionId)];
    var _ := StartSessionHook(reg, ctx, newId);
    counters := counters + [reg.GetSessionCounter(ctx.sessionId)];
    assert reg.sessions == old(reg.sessions)[newId := e.(counter := 3)];
  }

  /** The second half: the counter reads 2, 1, then the lookup fails with
      the session id already deleted from the context. */
  method NestedStop(reg: Registry, ctx: Context, oracle: nat -> Outcome) returns (counters: seq<Result<int>>)
    requires reg.Valid() && ctx.sessionId.Some? && ctx.sessionId.value in reg.sessions
    requires reg.sessions[ctx.sessionId.value].counter == 3
    requires !reg.sessions[ctx.sessionId.value].session.inTransaction
    modifies reg, ctx`sessionId, reg.EngineSessionOf(ctx.sessionId)
    ensures reg.Valid() && ctx.sessionId.None? && reg.sessions == old(reg.sessions) - {old(ctx.sessionId).value}
    ensures counters == [Success(2), Success(1), Failure(Aborted(SessionMissing, None))]
  {
    ghost var id := ctx.sessionId.value;
    ghost var e := reg.sessions[id];
    var _ := reg.EndSessionAndCommitTransaction(ctx, oracle);
    counters := [reg.GetSessionCounter(ctx.sessionId)];
    var _ := reg.EndSessionAndCommitTransaction(ctx, oracle);
    counters := counters + [reg.GetSessionCounter(ctx.sessionId)];
    assert reg.sessions == old(reg.sessions)[id := e.(counter := 1)];
    var _ := reg.EndSessionAndCommitTransaction(ctx, oracle);
    counters := counters + [reg.GetSessionCounter(ctx.sessionId)];
  }

  /** Nesting at any depth: a session started at depth 1 with a transaction
      opened there, then reused `n` times, reads counters 1 .. n + 1; `n`
      ends read n .. 1 and make no engine call, so nothing is committed
      before the last holder leaves; the last end commits and tears down. */
  method NestedHolders(reg: Registry, ctx: Context, newId: string, n: nat, oracle: nat -> Outcome)
    returns (starts: seq<Result<int>>, ends: seq<Result<int>>, session: EngineSession,
             ghost callsBeforeLastEnd: seq<Call>)
    requires reg.Valid() && ctx.sessionId.None?
    requires newId != "" && newId !in reg.sessions
    modifies reg, ctx`sessionId
    ensures reg.Valid() && reg.sessions == old(reg.sessions) && ctx.sessionId.None?
    ensures fresh(session) && session.ended
    ensures callsBeforeLastEnd == [StartTransactionCall]
    ensures session.calls == callsBeforeLastEnd + FinalCalls(true, oracle)
    ensures |starts| == n + 1 && forall i | 0 <= i <= n :: starts[i] == Success(i + 1)
    ensures |ends| == n + 1 && forall i | 0 <= i < n :: ends[i] == Success(n - i)
    ensures ends[n] == Failure(Aborted(SessionMissing, None))
  {
    starts, session := OpenNested(reg, ctx, newId, n);
    ghost var afterOpen := reg.sessions;
    assert afterOpen[newId].session == session;
    ends, callsBeforeLastEnd := CloseNested(reg, ctx, n, oracle);
    assert reg.sessions == afterOpen - {newId} == old(reg.sessions);
  }

  /** The opening half: start, open the transaction at depth 1, reuse `n` times. */
  method OpenNested(reg: Registry, ctx: Context, newId: string, n: nat)
    returns (counters: seq<Result<int>>, session: EngineSession)
    requires reg.Valid() && ctx.sessionId.None?
    requires newId != "" && newId !in reg.sessions
    modifies reg, ctx`sessionId
    ensures reg.Valid() && ctx.sessionId == Some(newId)
    ensures reg.sessions == old(reg.sessions)[newId := Entry(newId, n + 1, session)]
    ensures fresh(session) && session.inTransaction && !session.ended && session.calls == [StartTransactionCall]
    ensures |counters| == n + 1 && forall i | 0 <= i <= n :: counters[i] == Success(i + 1)
  {
    var _ := StartSessionHook(reg, ctx, newId);
    session := reg.sessions[newId].session;
    var _ := reg.StartTransaction(ctx.sessionId);
    counters := [reg.GetSessionCounter(ctx.sessionId)];
    var ups := ReuseHooks(reg, ctx, n);
    counters := counters + ups;
  }

  /** The closing half: `n` inner ends, then the last one. */
  method CloseNested(reg: Registry, ctx: Context, n: nat, oracle: nat -> Outcome)
    returns (counters: seq<Result<int>>, ghost callsBeforeLastEnd: seq<Call>)
    requires reg.Valid() && ctx.sessionId.Some? && ctx.sessionId.value in reg.sessions
    requires reg.sessions[ctx.sessionId.value].counter == n + 1
    requires reg.sessions[ctx.sessionId.value].session.inTransaction
    modifies reg, ctx`sessionId, reg.EngineSessionOf(ctx.sessionId)
    ensures var s := old(reg.sessions)[old(ctx.sessionId).value].session;
      callsBeforeLastEnd == old(s.calls) && s.ended
      && s.calls == callsBeforeLastEnd + FinalCalls(true, oracle)
    ensures reg.Valid() && reg.sessions == old(reg.sessions) - {old(ctx.sessionId).value} && ctx.sessionId.None?
    ensures |counters| == n + 1
    ensures forall i | 0 <= i < n :: counters[i] == Success(n - i)
    ensures counters[n] == Failure(Aborted(SessionMissing, None))
  {
    var downs := InnerEnds(reg, ctx, n, oracle);
    callsBeforeLastEnd := reg.sessions[ctx.sessionId.value].session.calls;
    var _ := reg.EndSessionAndCommitTransaction(ctx, oracle);
    counters := downs + [reg.GetSessionCounter(ctx.sessionId)];
  }

  /** `n` more start-session hooks on a context whose session is held once:
      counters 2 .. n + 1, and only that entry's counter changes. */
  method ReuseHooks(reg: Registry, ctx: Context, n: nat) returns (counters: seq<Result<int>>)
    requires reg.Valid() && IsSet(ctx.sessionId) && ctx.sessionId.value in reg.sessions
    requires reg.sessions[ctx.sessionId.value].counter == 1
    modifies reg, ctx`sessionId
    ensures reg.Valid() && ctx.sessionId == old(ctx.sessionId)
    ensures var id := ctx.sessionId.value;
      reg.sessions == old(reg.sessions)[id := old(reg.sessions)[id].(counter := n + 1)]
    ensures |counters| == n && forall i | 0 <= i < n :: counters[i] == Success(i + 2)
  {
    ghost var id := ctx.sessionId.value;
    ghost var e := reg.sessions[id];
    counters := [];
    for i := 0 to n
      invariant reg.Valid() && ctx.sessionId == old(ctx.sessionId)
      invariant reg.sessions == old(reg.sessions)[id := e.(counter := i + 1)]
      invariant |counters| == i && forall j | 0 <= j < i :: counters[j] == Success(j + 2)
    {
      var _ := StartSessionHook(reg, ctx, "");
      counters := counters + [reg.GetSessionCounter(ctx.sessionId)];
    }
  }

  /** `n` end-of-session steps on a session held `n + 1` times: counters
      n .. 1, and the engine session sees no call. */
  method InnerEnds(reg: Registry, ctx: Context, n: nat, oracle: nat -> Outcome) returns (counters: seq<Result<int>>)
    requires reg.Valid() && ctx.sessionId.Some? && ctx.sessionId.value in reg.sessions
    requires reg.sessions[ctx.sessionId.value].counter == n + 1
    modifies reg, ctx`sessionId, reg.EngineSessionOf(ctx.sessionId)
    ensures reg.Valid() && ctx.sessionId == old(ctx.sessionId)
    ensures var id := ctx.sessionId.value;
      var e := old(reg.sessions)[id];
      reg.sessions == old(reg.sessions)[id := e.(counter := 1)]
      && e.session.calls == old(e.session.calls) && e.session.inTransaction == old(e.session.inTransaction)
      && e.session.ended == old(e.session.ended)
    ensures |counters| == n && forall i | 0 <= i < n :: counters[i] == Success(n - i)
  {
    ghost var id := ctx.sessionId.value;
    ghost var e := reg.sessions[id];
    counters := [];
    for i := 0 to n
      invariant reg.Valid() && ctx.sessionId == old(ctx.sessionId)
      invariant reg.sessions == old(reg.sessions)[id := e.(counter := n + 1 - i)]
      invariant e.session.calls == old(e.session.calls) && e.session.inTransaction == old(e.session.inTransaction)
      invariant e.session.ended == old(e.session.ended)
      invariant |counters| == i && forall j | 0 <= j < i :: counters[j] == Success(n - j)
    {
      var _ := reg.EndSessionAndCommitTransaction(ctx, oracle);
      counters := counters + [reg.GetSessionCounter(ctx.sessionId)];
    }
  }
}
