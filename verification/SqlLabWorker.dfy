/**
 * The worker's code as it is written: `get_sql_results` and what it calls, updating the query row
 * through its session, the payload and the result set in place. Every nondeterministic choice is
 * the environment's. The ghost trace records the choices; each method is proved to take the state
 * machine's steps for that trace, so what holds of every run holds of this code.
 */
module SqlLabWorker {
  import opened Wrappers
  import opened QueryRow
  import opened SqlLab
  import opened SqlLabSafety
  import opened SqlLabLimits
  import opened SqlLabReturns

  /** How `execute_query` ends: with a result set, as stopped, or with another exception. */
  datatype Outcome = Finished | QueryStopped | Exception

  /** What a handled failure returns: the payload with FAILED, or with STOPPED if a stop came after the commit. */
  predicate FailureTold(base: Payload, result: Payload, committed: Status) {
    && result.status.Some? && result == base.(status := result.status)
    && FailedOrStopped(result.status.value) && FailedOrStopped(committed)
    && (result.status.value == Stopped ==> committed == Stopped)
  }

  class Execution {
    const cfg: Config
    const query: QueryId
    ghost const row0: Row

    var session: Session
    var payload: Payload
    var limits: seq<Option<nat>>     // the LIMIT carried by each parsed statement
    var data: seq<Record>            // rows of the latest result set

    ghost var pc: PC
    ghost var full: seq<Record>
    ghost var started: nat
    ghost var refreshes: nat
    ghost var fits: seq<bool>
    ghost var trace: seq<Event>

    ghost function State(): Worker
      reads this
    {
      Worker(pc, session, limits, data, payload, full, started, refreshes, fits)
    }

    ghost predicate Valid()
      reads this
    {
      State() == Run(cfg, query, Initial(query, row0), trace)
    }

    constructor (cfg: Config, query: QueryId, row: Row)
      ensures Valid() && pc == Start && trace == []
      ensures this.cfg == cfg && this.query == query && row0 == row
    {
      this.cfg, this.query, row0 := cfg, query, row;
      session, payload := Session(row, None, CLEAN), Payload(Some(query), None, [], None);
      limits, data := [], [];
      pc, full, started, refreshes, fits, trace := Start, [], 0, 0, [], [];
    }

    ghost method Record(before: Worker, e: Event)
      requires before == Run(cfg, query, Initial(query, row0), trace)
      requires State() == Next(cfg, query, before, e)
      modifies this`trace
      ensures Valid() && trace == old(trace) + [e]
    {
      hide Next;
      trace := trace + [e];
    }

    /** Between two accesses of the worker, other processes may stop the query and the ORM may read it. */
    method Interference()
      requires Valid()
      modifies this`session, this`trace
      ensures Valid() && session.changes == old(session.changes) && old(trace) <= trace
      ensures session.row == old(session.row) || session.row == old(session.row).(status := Stopped, ended := true)
    {
      hide Run;
      var n: nat :| 0 <= n;
      for k := 0 to n
        invariant Valid() && session.changes == old(session.changes) && old(trace) <= trace
        invariant session.row == old(session.row) || session.row == old(session.row).(status := Stopped, ended := true)
      {
        ghost var before := State();
        if * {
          session := session.StoppedElsewhere();
          Record(before, Stop);
        } else {
          session := session.Load();
          Record(before, Reload);
        }
      }
    }

    /** An exception outside the engine call, on its way to `get_sql_results`. */
    ghost method Raised()
      requires Valid() && !pc.Engine? && !pc.Build? && !pc.Done? && !pc.Crashed?
      requires !pc.Outer? && !pc.OuterCommit? && !pc.OuterReply?
      modifies this`pc, this`trace
      ensures Valid() && pc == Outer && old(trace) <= trace
    {
      ghost var before := State();
      pc := Outer;
      Record(before, Raise);
    }

    /** Library code runs while others interfere; it may raise. */
    method Raises() returns (raised: bool)
      requires Valid() && !pc.Engine? && !pc.Build? && !pc.Done? && !pc.Crashed?
      requires !pc.Outer? && !pc.OuterCommit? && !pc.OuterReply?
      modifies this`session, this`pc, this`trace
      ensures Valid() && pc == (if raised then Outer else old(pc)) && old(trace) <= trace
      ensures session.changes == old(session.changes)
    {
      hide *;
      Interference();
      raised := *;
      if raised {
        Raised();
      }
    }

    // ----- apply_limit -----

    /** One statement: clamp the query limit, then ask for one row more. */
    method ApplyLimit(statement: Statement) returns (limitValue: Option<nat>)
      requires session.loaded.Some?
      modifies this`session
      ensures session == old(session) || session == old(session).SetLimit(session.View().limit)
      ensures session.View().limit ==
        if Exempt(cfg, statement) then old(session).View().limit else Clamped(cfg, old(session).View().limit)
      ensures limitValue ==
        if !Exempt(cfg, statement) && Truthy(session.View().limit) then Some(session.View().limit.value + 1) else None
    {
      limitValue := None;
      if statement.mutating || (cfg.ctasUsed && cfg.ctasNoLimit) {
        return;
      }
      var limit := session.View().limit;
      if Truthy(cfg.maxRow) && (!Truthy(limit) || limit.value > cfg.maxRow.value) {
        session := session.SetLimit(cfg.maxRow);
      }
      limit := session.View().limit;
      if Truthy(limit) {
        limitValue := Some(limit.value + 1);
      }
    }

    method ApplyLimits()
      requires session.loaded.Some? && session.changes.limit == None
      modifies this`session, this`limits
      ensures session == old(session).SetLimit(LimitAfter(cfg, old(session).View().limit, cfg.statements))
      ensures limits == StatementLimits(cfg, old(session).View().limit, cfg.statements)
    {
      hide Clamped, Exempt, Truthy;
      ghost var requested := session.View().limit;
      limits := [];
      for n := 0 to |cfg.statements|
        invariant session == old(session).SetLimit(LimitAfter(cfg, requested, cfg.statements[..n]))
        invariant limits == StatementLimits(cfg, requested, cfg.statements[..n])
      {
        assert cfg.statements[..n + 1][..n] == cfg.statements[..n];
        var limitValue := ApplyLimit(cfg.statements[n]);
        limits := limits + [limitValue];
      }
      assert cfg.statements[..|cfg.statements|] == cfg.statements;
    }

    // ----- execute_query -----

    /** `db.session.refresh(query)`, and whether it shows a stop. */
    method Refresh(ghost next: PC, ghost e: Event) returns (stopped: bool)
      requires Valid()
      requires (pc.Top? && pc.i < BlockCount(cfg) && e == Ok && next == Announce(pc.i))
            || ((pc.Launch? || pc.Engine?) && e == EngineError && next == Inner)
      modifies this`session, this`pc, this`refreshes, this`trace
      ensures Valid() && trace == old(trace) + [e]
      ensures session == old(session).Refresh(cfg.flushes) && (stopped <==> session.View().status == Stopped)
      ensures pc == if stopped then Done(Some(payload.(status := Some(Stopped)))) else next
    {
      hide Run;
      ghost var before := State();
      session := session.Refresh(cfg.flushes);
      stopped := session.View().status == Stopped;
      refreshes := refreshes + 1;
      pc := if stopped then StoppedResult(before) else next;
      Record(before, e);
    }

    /** `except Exception`: a stop shows as an error of the engine, so look at the row first. */
    method EngineFailed() returns (outcome: Outcome)
      requires Valid() && (pc.Launch? || pc.Engine?)
      modifies this`session, this`pc, this`refreshes, this`trace
      ensures Valid() && old(trace) <= trace
      ensures outcome == QueryStopped ==> pc == Done(Some(payload.(status := Some(Stopped))))
      ensures outcome == Exception ==> pc == Inner
      ensures outcome != Finished
    {
      var stopped := Refresh(Inner, EngineError);
      outcome := if stopped then QueryStopped else Exception;
    }

    method TimedOutInEngine()
      requires Valid() && (pc.Launch? || pc.Engine?)
      modifies this`session, this`pc, this`trace
      ensures Valid() && pc == Inner && old(trace) <= trace && session == old(session).SetStatus(TimedOut)
    {
      hide Run;
      ghost var before := State();
      session := session.SetStatus(TimedOut);
      pc := Inner;
      Record(before, SoftTimeout);
    }

    /** Fetch one row more than the limit; all of them, or all but the last. */
    method FetchRows(i: nat, rows: seq<Record>)
      requires Valid() && pc == Engine(i)
      modifies this`session, this`data, this`full, this`fits, this`pc, this`trace
      ensures Valid() && pc == Build(i) && trace == old(trace) + [Rows(rows)] && full == rows
      ensures var limit := old(session.View().limit);
        && data == Trimmed(limit, Fetched(cfg, BlockLimit(cfg, limits, i), limit, rows))
        && data == rows[..KeptCount(cfg, BlockLimit(cfg, limits, i), limit, |rows|)]
        && session.View().limit == limit
        && fits == old(fits) + [FetchedAll(limit, Fetched(cfg, BlockLimit(cfg, limits, i), limit, rows))]
        && session.View().factor == if fits[|fits| - 1] then NotLimited else old(session.View().factor)
    {
      hide Run, Next, Fetched, BlockLimit, Trimmed, FetchedAll, KeptCount;
      TakenRows(cfg, State(), i, rows);
      Take(i, rows);
    }

    method Take(i: nat, rows: seq<Record>)
      requires Valid() && pc == Engine(i)
      modifies this`session, this`data, this`full, this`fits, this`pc, this`trace
      ensures Valid() && trace == old(trace) + [Rows(rows)] && State() == TakeRows(cfg, old(State()), i, rows)
    {
      hide Run, Fetched, BlockLimit;
      ghost var before := State();
      session := session.Load();
      var limit := session.View().limit;
      data := Fetched(cfg, BlockLimit(cfg, limits, i), limit, rows);
      if limit.None? || |data| <= limit.value {
        session := session.SetNotLimited();
        fits := fits + [true];
      } else {
        data := data[..|data| - 1];
        fits := fits + [false];
      }
      full, pc := rows, Build(i);
      Record(before, Rows(rows));
    }

    method ExecuteQuery(i: nat) returns (outcome: Outcome)
      requires Valid() && pc == Launch(i) && i < BlockCount(cfg)
      modifies this
      ensures Valid() && old(trace) <= trace
      ensures outcome == Finished ==> pc == Top(i + 1)
      ensures outcome == QueryStopped ==> pc == Done(Some(payload.(status := Some(Stopped))))
      ensures outcome == Exception ==> pc == Inner
    {
      hide *;
      Interference();
      if * {
        outcome := EngineFailed();
        return;
      } else if * {
        TimedOutInEngine();
        return Exception;
      } else if * {
        CallRaisesAt(CallRaises);
        return Exception;
      }
      CommitLaunch(i);
      EngineRuns(i);
      if * {
        outcome := EngineFailed();
        return;
      } else if * {
        TimedOutInEngine();
        return Exception;
      } else if * {
        CallRaisesAt(OAuthRedirect);
        return Exception;
      } else if * {
        CallRaisesAt(Raise);
        return Exception;
      }
      var rows: seq<Record> := *;
      FetchRows(i, rows);
      Interference();
      if * {
        CallRaisesAt(Raise);
        return Exception;
      }
      ResultSetBuilt(i);
      return Finished;
    }

    /** The commit before the engine is called. */
    method CommitLaunch(i: nat)
      requires Valid() && pc == Launch(i)
      modifies this`session, this`pc, this`started, this`trace
      ensures Valid() && pc == Engine(i) && old(trace) <= trace
      ensures session == old(session).Commit() && started == old(started) + 1
    {
      hide Run;
      ghost var before := State();
      session := session.Commit();
      started, pc := started + 1, Engine(i);
      Record(before, Ok);
    }

    /** While the engine runs it may store a cancel id or its progress, any number of times. */
    method EngineRuns(i: nat)
      requires Valid() && pc == Engine(i)
      modifies this`session, this`trace
      ensures Valid() && old(trace) <= trace
    {
      hide *;
      var n: nat :| 0 <= n;
      Interference();
      for k := 0 to n
        invariant Valid() && old(trace) <= trace
      {
        CommitInEngine(i);
        Interference();
      }
    }

    method CommitInEngine(i: nat)
      requires Valid() && pc == Engine(i)
      modifies this`session, this`trace
      ensures Valid() && old(trace) <= trace
    {
      hide Run;
      ghost var before := State();
      session := session.Commit();
      Record(before, EngineCommit);
    }

    ghost method CallRaisesAt(e: Event)
      requires Valid()
      requires (pc.Launch? && e == CallRaises) || (pc.Engine? && (e == OAuthRedirect || e == Raise))
        || (pc.Build? && e == Raise)
      modifies this`pc, this`trace
      ensures Valid() && pc == Inner && old(trace) <= trace
    {
      hide Run;
      ghost var before := State();
      pc := Inner;
      Record(before, e);
    }

    ghost method ResultSetBuilt(i: nat)
      requires Valid() && pc == Build(i)
      modifies this`pc, this`trace
      ensures Valid() && pc == Top(i + 1) && old(trace) <= trace
    {
      hide Run;
      ghost var before := State();
      pc := Top(i + 1);
      Record(before, Ok);
    }

    // ----- handle_query_error -----

    ghost method HandlerRaises()
      requires Valid() &&
        (pc.Inner? || pc.InnerCommit? || pc.InnerReply? || pc.Outer? || pc.OuterCommit? || pc.OuterReply?)
      modifies this`pc, this`trace
      ensures Valid() && old(trace) <= trace
      ensures pc == if old(pc.Inner? || pc.InnerCommit? || pc.InnerReply?) then Outer else Crashed
    {
      hide Run;
      ghost var before := State();
      pc := if pc.Inner? || pc.InnerCommit? || pc.InnerReply? then Outer else Crashed;
      Record(before, Raise);
    }

    method SetFailed()
      requires Valid() && (pc.Inner? || pc.Outer?)
      modifies this`session, this`pc, this`trace
      ensures Valid() && old(trace) <= trace
      ensures pc == if old(pc).Inner? then InnerCommit else OuterCommit
      ensures session.View().status == Failed && session.View().ended && session.row == old(session).row
    {
      hide Run;
      ghost var before := State();
      session := session.Load().SetStatus(Failed);
      if !session.View().ended {
        session := session.SetEnded();
      }
      pc := if pc.Inner? then InnerCommit else OuterCommit;
      Record(before, Ok);
    }

    method CommitFailed()
      requires Valid() && (pc.InnerCommit? || pc.OuterCommit?)
      modifies this`session, this`pc, this`trace
      ensures Valid() && old(trace) <= trace
      ensures pc == if old(pc).InnerCommit? then InnerReply else OuterReply
      ensures session == old(session).Commit()
    {
      hide Run;
      ghost var before := State();
      session := session.Commit();
      pc := if pc.InnerCommit? then InnerReply else OuterReply;
      Record(before, Ok);
    }

    /** The payload gets the status that is read back after the commit. */
    method FailureReply(base: Payload) returns (result: Payload)
      requires Valid() && HandlerReplies(pc)
      requires base == if pc.InnerReply? then payload else Payload(None, None, [], None)
      modifies this`session, this`pc, this`trace
      ensures Valid() && old(trace) <= trace && pc == Done(Some(result))
      ensures FailureTold(base, result, session.row.status)
      ensures result.status == Some(old(session).View().status)
    {
      hide Run, Next;
      RunFailureSeen(cfg, query, row0, trace);
      result := Reply(base);
    }

    method Reply(base: Payload) returns (result: Payload)
      requires Valid() && HandlerReplies(pc) && FailureSeen(State())
      requires base == if pc.InnerReply? then payload else Payload(None, None, [], None)
      modifies this`session, this`pc, this`trace
      ensures Valid() && old(trace) <= trace && pc == Done(Some(result))
      ensures FailureTold(base, result, session.row.status)
      ensures result.status == Some(old(session).View().status)
    {
      hide Run;
      ghost var before := State();
      result := base.(status := Some(session.View().status));
      session := session.Load();
      pc := Done(Some(result));
      Record(before, Ok);
    }

    /**
     * FAILED and, unless there is one, an end time are committed, then the status is read back;
     * `get_sql_results` passes no payload. A stop after the commit is the only other outcome.
     */
    method HandleQueryError(base: Payload) returns (raised: bool, result: Payload)
      requires Valid() && (pc.Inner? || pc.Outer?)
      requires base == if pc.Inner? then payload else Payload(None, None, [], None)
      modifies this`session, this`pc, this`trace
      ensures Valid() && old(trace) <= trace
      ensures raised ==> pc == if old(pc).Inner? then Outer else Crashed
      ensures !raised ==> pc == Done(Some(result)) && FailureTold(base, result, session.row.status)
      ensures !raised && FreshRow(row0) && session.row.status == Failed ==> session.row.ended
    {
      hide Run, Next, FailureTold;
      result := base;
      raised := HandleInSession();
      if raised { return; }
      result := FailureReply(base);
      if FreshRow(row0) {
        EveryRunEndsTerminal(cfg, query, row0, trace);
      }
    }

    method HandleInSession() returns (raised: bool)
      requires Valid() && (pc.Inner? || pc.Outer?)
      modifies this`session, this`pc, this`trace
      ensures Valid() && old(trace) <= trace
      ensures pc == if old(pc).Inner? then (if raised then Outer else InnerReply)
        else (if raised then Crashed else OuterReply)
    {
      hide *;
      Interference();
      raised := *;
      if raised {
        HandlerRaises();
        return;
      }
      SetFailed();
      Interference();
      raised := *;
      if raised {
        HandlerRaises();
        return;
      }
      CommitFailed();
      Interference();
      raised := *;
      if raised {
        HandlerRaises();
      }
    }

    // ----- execute_sql_statements -----

    /** RUNNING is committed before anything is parsed. */
    method SetRunning()
      requires Valid() && pc == Start
      modifies this`session, this`pc, this`trace
      ensures Valid() && pc == Prepare && old(trace) <= trace && session.changes == CLEAN
      ensures session == old(session).Load().SetStatus(Running).Commit()
    {
      hide Run;
      ghost var before := State();
      session := session.Load().SetStatus(Running).Commit();
      pc := Prepare;
      Record(before, Ok);
    }

    method SetLimits()
      requires Valid() && pc == Prepare && session.changes == CLEAN
      modifies this`session, this`limits, this`pc, this`trace
      ensures Valid() && pc == Connect && old(trace) <= trace
      ensures var limit := old(session).Load().View().limit;
        && session == old(session).Load().SetLimit(LimitAfter(cfg, limit, cfg.statements))
        && limits == StatementLimits(cfg, limit, cfg.statements)
    {
      hide Run, LimitAfter, StatementLimits;
      ghost var before := State();
      session := session.Load();
      ApplyLimits();
      pc := Connect;
      Record(before, Ok);
    }

    method OpenCursor()
      requires Valid() && pc == Connect
      modifies this`session, this`pc, this`trace
      ensures Valid() && pc == Top(0) && old(trace) <= trace
      ensures session == if cfg.cancelKey then old(session).Commit() else old(session)
    {
      hide Run;
      ghost var before := State();
      if cfg.cancelKey {
        session := session.Commit();
      }
      pc := Top(0);
      Record(before, Ok);
    }

    method AnnounceBlock(i: nat)
      requires Valid() && pc == Announce(i)
      modifies this`session, this`pc, this`trace
      ensures Valid() && pc == Launch(i) && old(trace) <= trace && session == old(session).Commit()
    {
      hide Run;
      ghost var before := State();
      session := session.Commit();
      pc := Launch(i);
      Record(before, Ok);
    }

    /** Between the check for a stop and the call of `execute_query`. */
    method LogProgress(i: nat) returns (raised: bool)
      requires Valid() && pc == Announce(i)
      modifies this`session, this`pc, this`trace
      ensures Valid() && old(trace) <= trace && pc == if raised then Outer else Launch(i)
    {
      hide *;
      raised := Raises();
      if raised { return; }
      AnnounceBlock(i);
      raised := Raises();
    }

    /** One turn of the loop over blocks. */
    method RunBlock(i: nat) returns (outcome: Outcome, raised: bool, result: Option<Payload>)
      requires Valid() && pc == Top(i) && i < BlockCount(cfg)
      modifies this
      ensures Valid() && old(trace) <= trace
      ensures raised ==> pc == Outer
      ensures !raised ==> pc == if outcome == Finished then Top(i + 1) else Done(result)
    {
      hide *;
      outcome, result := QueryStopped, None;
      raised := Raises();
      if raised { return; }
      var stopped := Refresh(Announce(i), Ok);
      if stopped {
        return QueryStopped, false, Some(payload.(status := Some(Stopped)));
      }
      raised := LogProgress(i);
      if raised { return; }
      outcome := ExecuteQuery(i);
      match outcome
      case Finished => return Finished, false, None;
      case QueryStopped => return QueryStopped, false, Some(payload.(status := Some(Stopped)));
      case Exception =>
        var failed;
        raised, failed := HandleQueryError(payload);
        result := Some(failed);
    }

    /** After the loop: without any block there is no result set to read, and that raises. */
    method AfterBlocks() returns (raised: bool)
      requires Valid() && pc == Top(BlockCount(cfg))
      modifies this`session, this`pc, this`trace
      ensures Valid() && pc == (if raised then Outer else Serialize) && old(trace) <= trace
      ensures raised <==> BlockCount(cfg) == 0
      ensures session == if raised then old(session) else old(session).SetEnded()
    {
      hide Run;
      ghost var before := State();
      raised := BlockCount(cfg) == 0;
      if raised {
        pc := Outer;
      } else {
        session := session.SetEnded();
        pc := Serialize;
      }
      Record(before, Ok);
    }

    method UpdatePayload()
      requires Valid() && pc == Serialize
      modifies this`session, this`payload, this`pc, this`trace
      ensures Valid() && pc == Store && old(trace) <= trace
      ensures payload == Payload(Some(query), Some(Success), data, old(session).View().resultsKey)
    {
      hide Run;
      ghost var before := State();
      payload := Payload(Some(query), Some(Success), data, session.View().resultsKey);
      session := session.Load();
      pc := Store;
      Record(before, Ok);
    }

    predicate Stores()
      reads this
    {
      cfg.storeResults && cfg.resultsBackend
    }

    method WriteSucceeded(key: Key)
      requires Valid() && pc == Store && Stores()
      modifies this`session, this`payload, this`pc, this`trace
      ensures Valid() && pc == Final && trace == old(trace) + [Stored(key)]
      ensures payload == old(payload).(resultsKey := Some(key)) && session == old(session).SetResultsKey(Some(key))
    {
      hide Run;
      ghost var before := State();
      payload := payload.(resultsKey := Some(key));
      session := session.SetResultsKey(Some(key));
      pc := Final;
      Record(before, Stored(key));
    }

    /** A failed write; a run that does not return its results commits FAILED and raises. */
    method WriteFailed(key: Key) returns (raised: bool)
      requires Valid() && pc == Store && Stores()
      modifies this`session, this`payload, this`pc, this`trace
      ensures Valid() && pc == (if raised then Outer else Final) && trace == old(trace) + [NotStored(key)]
      ensures payload == old(payload).(resultsKey := Some(key)) && raised == !cfg.returnResults
      ensures !raised ==> session == old(session).SetResultsKey(None)
      ensures raised ==> session == old(session).SetResultsKey(None).SetStatus(Failed).Commit()
    {
      hide Run;
      ghost var before := State();
      payload := payload.(resultsKey := Some(key));
      session := session.SetResultsKey(None);
      raised := !cfg.returnResults;
      if raised {
        session := session.SetStatus(Failed).Commit();
      }
      pc := if raised then Outer else Final;
      Record(before, NotStored(key));
    }

    method SkipStore()
      requires Valid() && pc == Store && !Stores()
      modifies this`pc, this`trace
      ensures Valid() && pc == Final && trace == old(trace) + [Ok]
    {
      hide Run;
      ghost var before := State();
      pc := Final;
      Record(before, Ok);
    }

    /**
     * Write the payload under a fresh key, if results are stored. The payload names that key either
     * way; the row is given it only if the write succeeded, and otherwise its key is cleared.
     */
    method StoreResults(key: Key) returns (raised: bool)
      requires Valid() && pc == Store
      modifies this`session, this`payload, this`pc, this`trace
      ensures Valid() && pc == (if raised then Outer else Final)
      ensures !Stores() ==> !raised && trace == old(trace) + [Ok] && session == old(session) && payload == old(payload)
      ensures Stores() ==>
        && payload == old(payload).(resultsKey := Some(key))
        && ((trace == old(trace) + [Stored(key)] && !raised && session == old(session).SetResultsKey(Some(key)))
            || (trace == old(trace) + [NotStored(key)] && !raised && cfg.returnResults &&
                session == old(session).SetResultsKey(None))
            || (trace == old(trace) + [NotStored(key)] && raised && !cfg.returnResults
                && session == old(session).SetResultsKey(None).SetStatus(Failed).Commit()))
    {
      hide Run, Next;
      raised := false;
      if !Stores() {
        SkipStore();
      } else if * {
        WriteSucceeded(key);
      } else {
        raised := WriteFailed(key);
      }
    }

    method SetSuccess()
      requires Valid() && pc == Final
      modifies this`session, this`pc, this`trace
      ensures Valid() && pc == Return && old(trace) <= trace
      ensures var before := old(session);
        session == (if before.View().status != Failed then before.Load().SetStatus(Success) else before).Commit()
    {
      hide Run;
      ghost var before := State();
      if session.View().status != Failed {
        session := session.Load().SetStatus(Success);
      }
      session := session.Commit();
      pc := Return;
      Record(before, Ok);
    }

    method ReturnPayload() returns (result: Option<Payload>)
      requires Valid() && pc == Return
      modifies this`pc, this`trace
      ensures Valid() && pc == Done(result) && old(trace) <= trace
      ensures result == if cfg.returnResults then Some(payload) else None
    {
      hide Run;
      ghost var before := State();
      result := if cfg.returnResults then Some(payload) else None;
      pc := Done(result);
      Record(before, Ok);
    }

    /** The result set becomes the payload. */
    method FillPayload() returns (raised: bool)
      requires Valid() && pc == Top(BlockCount(cfg))
      modifies this
      ensures Valid() && old(trace) <= trace && pc == if raised then Outer else Store
    {
      hide *;
      raised := Raises();
      if raised { return; }
      raised := AfterBlocks();
      if raised { return; }
      raised := Raises();
      if raised { return; }
      UpdatePayload();
    }

    /** From the end of the loop to the return. */
    method Finish(key: Key) returns (raised: bool, result: Option<Payload>)
      requires Valid() && pc == Top(BlockCount(cfg))
      modifies this
      ensures Valid() && old(trace) <= trace
      ensures pc == if raised then Outer else Done(result)
    {
      hide *;
      result := None;
      raised := FillPayload();
      if raised { return; }
      raised := Raises();
      if raised { return; }
      raised := StoreResults(key);
      if raised { return; }
      raised, result := Conclude();
    }

    method Conclude() returns (raised: bool, result: Option<Payload>)
      requires Valid() && pc == Final
      modifies this
      ensures Valid() && old(trace) <= trace
      ensures pc == if raised then Outer else Done(result)
    {
      hide *;
      result := None;
      raised := Raises();
      if raised { return; }
      SetSuccess();
      raised := Raises();
      if raised { return; }
      result := ReturnPayload();
    }

    method ExecuteSqlStatements(key: Key) returns (raised: bool, result: Option<Payload>)
      requires Valid() && pc == Start
      modifies this
      ensures Valid() && old(trace) <= trace
      ensures pc == if raised then Outer else Done(result)
      ensures !raised ==> Delivered(cfg, query, row0, trace, result)
    {
      hide Run, Next, Delivered;
      raised, result := RunStatements(key);
      if !raised {
        RunDelivers(cfg, query, row0, trace);
      }
    }

    method RunStatements(key: Key) returns (raised: bool, result: Option<Payload>)
      requires Valid() && pc == Start
      modifies this
      ensures Valid() && old(trace) <= trace
      ensures pc == if raised then Outer else Done(result)
    {
      hide *;
      result := None;
      raised := Raises();
      if raised { return; }
      SetRunning();
      raised := Raises();
      if raised { return; }
      SetLimits();
      raised := Raises();
      if raised { return; }
      OpenCursor();
      for i := 0 to BlockCount(cfg)
        invariant Valid() && pc == Top(i) && old(trace) <= trace
      {
        var outcome;
        outcome, raised, result := RunBlock(i);
        if raised || outcome != Finished { return; }
      }
      raised, result := Finish(key);
    }

    /**
     * `get_sql_results`: any exception is handled once more. Unless the handler itself raises, the
     * row ends SUCCESS, FAILED or STOPPED, and with an end time if it is one of the first two, and the
     * caller is given what `Delivered` says: on success the rows of the last block, if asked for.
     */
    method GetSqlResults(key: Key) returns (escaped: bool, result: Option<Payload>)
      requires Valid() && pc == Start
      modifies this
      ensures Valid() && old(trace) <= trace
      ensures pc == if escaped then Crashed else Done(result)
      ensures FreshRow(row0) && !escaped ==> Terminal(session.row.status) && Told(result, session.row.status)
      ensures !escaped ==> Delivered(cfg, query, row0, trace, result)
      ensures FreshRow(row0) ==> session.row.status != TimedOut
      ensures FreshRow(row0) && (session.row.status == Success || session.row.status == Failed) ==> session.row.ended
    {
      hide Run, Next, Delivered;
      var raised;
      raised, result := ExecuteSqlStatements(key);
      escaped := false;
      if raised {
        var failed;
        escaped, failed := HandleQueryError(Payload(None, None, [], None));
        result := Some(failed);
      }
      if !escaped {
        RunDelivers(cfg, query, row0, trace);
      }
      if FreshRow(row0) {
        EveryRunEndsTerminal(cfg, query, row0, trace);
        ReturnedStatusIsCommitted(cfg, query, row0, trace);
      }
    }
  }
}
