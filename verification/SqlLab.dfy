/**
 * SQL Lab query execution (superset/superset/sql_lab.py) as a state machine. One worker runs the
 * blocks of a script against its `query` row while another process may commit STOPPED at any
 * moment. A step of the worker ends at its next access to shared state: a commit, a refresh, the
 * engine or the results backend. Library code appears as events: it succeeds or raises.
 */
module SqlLab {
  import opened Wrappers
  import opened QueryRow

  type QueryId = int

  /** One fetched row of a result. */
  type Record = string

  // ----- Configuration and the limit chain -----

  /** A parsed statement, after any CREATE TABLE AS rewriting. */
  datatype Statement = Statement(mutating: bool)

  datatype Config = Config(
    statements: seq<Statement>,
    asOneBlock: bool,       // run_multiple_statements_as_one
    ctasUsed: bool,         // select_as_cta_used
    ctasNoLimit: bool,      // SQLLAB_CTAS_NO_LIMIT
    maxRow: Option<nat>,    // SQL_MAX_ROW
    fetchMany: bool,        // the engine's limit method is FETCH_MANY
    cancelKey: bool,        // the engine gives a cancel id before execution
    flushes: bool,          // a refresh flushes pending changes rather than discarding them
    storeResults: bool,
    resultsBackend: bool,
    returnResults: bool
  )

  function BlockCount(cfg: Config): nat {
    if cfg.asOneBlock then 1 else |cfg.statements|
  }

  predicate Exempt(cfg: Config, s: Statement) {
    s.mutating || (cfg.ctasUsed && cfg.ctasNoLimit)
  }

  /** A limit that is neither NULL nor zero. */
  predicate Truthy(l: Option<nat>) {
    l.Some? && l.value > 0
  }

  /** The query limit after `apply_limit` for a statement that is not exempt. */
  function Clamped(cfg: Config, limit: Option<nat>): Option<nat> {
    if Truthy(cfg.maxRow) && (!Truthy(limit) || limit.value > cfg.maxRow.value) then cfg.maxRow else limit
  }

  function LimitAfter(cfg: Config, limit: Option<nat>, statements: seq<Statement>): Option<nat> {
    if statements == [] then limit
    else
      var before := LimitAfter(cfg, limit, statements[..|statements| - 1]);
      if Exempt(cfg, statements[|statements| - 1]) then before else Clamped(cfg, before)
  }

  /** The LIMIT each statement is given, None for none. */
  function StatementLimits(cfg: Config, limit: Option<nat>, statements: seq<Statement>): (r: seq<Option<nat>>)
    ensures |r| == |statements|
  {
    if statements == [] then []
    else
      var n := |statements| - 1;
      var after := LimitAfter(cfg, limit, statements);
      StatementLimits(cfg, limit, statements[..n])
      + [if !Exempt(cfg, statements[n]) && Truthy(after) then Some(after.value + 1) else None]
  }

  /** The limit of a block; several statements in one block return the result of the last. */
  function BlockLimit(cfg: Config, limits: seq<Option<nat>>, i: nat): Option<nat> {
    if cfg.asOneBlock then (if limits == [] then None else limits[|limits| - 1])
    else if i < |limits| then limits[i] else None
  }

  function First(n: nat, rows: seq<Record>): seq<Record> {
    if n < |rows| then rows[..n] else rows
  }

  /** What the engine hands over. FETCH_MANY limits the fetch; other engines limit the statement. */
  function Fetched(cfg: Config, blockLimit: Option<nat>, limit: Option<nat>, full: seq<Record>): seq<Record> {
    if cfg.fetchMany then (if limit.Some? then First(limit.value + 1, full) else full)
    else if blockLimit.Some? then First(blockLimit.value, full)
    else full
  }

  predicate FetchedAll(limit: Option<nat>, fetched: seq<Record>) {
    limit.None? || |fetched| <= limit.value
  }

  function Trimmed(limit: Option<nat>, fetched: seq<Record>): seq<Record> {
    if FetchedAll(limit, fetched) then fetched else fetched[..|fetched| - 1]
  }

  // ----- The worker -----

  datatype Payload = Payload(queryId: Option<QueryId>, status: Option<Status>,
                             data: seq<Record>, resultsKey: Option<Key>)

  datatype PC =
    | Start
    | Prepare              // parsing, checks, limits
    | Connect              // connection and cancel id
    | Top(i: nat)          // head of the loop, or after it
    | Announce(i: nat)     // progress message, committed
    | Launch(i: nat)       // executed_sql, committed, then the engine is called
    | Engine(i: nat)       // the engine runs block i
    | Build(i: nat)        // result set of block i
    | Serialize
    | Store
    | Final
    | Return
    | Inner | InnerCommit | InnerReply  // handle_query_error, called in the loop
    | Outer | OuterCommit | OuterReply  // handle_query_error, called by get_sql_results
    | Done(result: Option<Payload>)
    | Crashed              // an exception left get_sql_results

  datatype Event =
    | Stop                 // another process commits STOPPED
    | Reload               // the ORM reads expired attributes
    | Ok
    | Raise                // an exception outside the engine call
    | Rows(full: seq<Record>)
    | EngineError
    | SoftTimeout
    | OAuthRedirect
    | CallRaises           // an exception in execute_query that its own handling does not turn into a refresh
    | EngineCommit         // the engine stores a cancel id or progress
    | Stored(key: Key)
    | NotStored(key: Key)

  /** `full`, `started`, `refreshes` and `fits` record the run; the worker does not read them. */
  datatype Worker = Worker(
    pc: PC, session: Session, limits: seq<Option<nat>>, data: seq<Record>, payload: Payload,
    full: seq<Record>, started: nat, refreshes: nat, fits: seq<bool>
  )

  function Initial(q: QueryId, row: Row): Worker {
    Worker(Start, Session(row, None, CLEAN), [], [], Payload(Some(q), None, [], None), [], 0, 0, [])
  }

  function StoppedResult(w: Worker): PC {
    Done(Some(w.payload.(status := Some(Stopped))))
  }

  function RefreshThen(cfg: Config, w: Worker, next: PC): Worker {
    var session := w.session.Refresh(cfg.flushes);
    w.(session := session, refreshes := w.refreshes + 1,
       pc := if session.View().status == Stopped then StoppedResult(w) else next)
  }

  function HandleError(session: Session): Session {
    var failed := session.Load().SetStatus(Failed);
    if failed.View().ended then failed else failed.SetEnded()
  }

  function TakeRows(cfg: Config, w: Worker, i: nat, full: seq<Record>): Worker {
    var session := w.session.Load();
    var limit := session.View().limit;
    var fetched := Fetched(cfg, BlockLimit(cfg, w.limits, i), limit, full);
    w.(pc := Build(i), full := full, data := Trimmed(limit, fetched),
       fits := w.fits + [FetchedAll(limit, fetched)],
       session := if FetchedAll(limit, fetched) then session.SetNotLimited() else session)
  }

  function Next(cfg: Config, q: QueryId, w: Worker, e: Event): Worker {
    match e
    case Stop => w.(session := w.session.StoppedElsewhere())
    case Reload => w.(session := w.session.Load())
    case Ok => NextOk(cfg, q, w)
    case Raise => NextRaise(w)
    case _ => NextLibrary(cfg, w, e)
  }

  function NextOk(cfg: Config, q: QueryId, w: Worker): Worker {
    var s := w.session;
    match w.pc
    case Start =>
      w.(pc := Prepare, session := s.Load().SetStatus(Running).Commit())
    case Prepare =>
      var limit := s.Load().View().limit;
      w.(pc := Connect,
         session := s.Load().SetLimit(LimitAfter(cfg, limit, cfg.statements)),
         limits := StatementLimits(cfg, limit, cfg.statements))
    case Connect =>
      w.(pc := Top(0), session := if cfg.cancelKey then s.Commit() else s)
    case Top(i) =>
      if i < BlockCount(cfg) then RefreshThen(cfg, w, Announce(i))
      else if BlockCount(cfg) == 0 then w.(pc := Outer)
      else w.(pc := Serialize, session := s.SetEnded())
    case Announce(i) =>
      w.(pc := Launch(i), session := s.Commit())
    case Launch(i) =>
      w.(pc := Engine(i), session := s.Commit(), started := w.started + 1)
    case Engine(i) => w
    case Build(i) =>
      w.(pc := Top(i + 1))
    case Serialize =>
      w.(pc := Store, session := s.Load(),
         payload := Payload(Some(q), Some(Success), w.data, s.View().resultsKey))
    case Store =>
      if cfg.storeResults && cfg.resultsBackend then w else w.(pc := Final)
    case Final =>
      w.(pc := Return,
         session := (if s.View().status != Failed then s.Load().SetStatus(Success) else s).Commit())
    case Return =>
      w.(pc := Done(if cfg.returnResults then Some(w.payload) else None))
    case Inner =>
      w.(pc := InnerCommit, session := HandleError(s))
    case InnerCommit =>
      w.(pc := InnerReply, session := s.Commit())
    case InnerReply =>
      w.(pc := Done(Some(w.payload.(status := Some(s.View().status)))), session := s.Load())
    case Outer =>
      w.(pc := OuterCommit, session := HandleError(s))
    case OuterCommit =>
      w.(pc := OuterReply, session := s.Commit())
    case OuterReply =>
      w.(pc := Done(Some(Payload(None, Some(s.View().status), [], None))), session := s.Load())
    case Done(_) => w
    case Crashed => w
  }

  function NextRaise(w: Worker): Worker {
    match w.pc
    case Engine(_) => w.(pc := Inner)
    case Build(_) => w.(pc := Inner)
    case Outer => w.(pc := Crashed)
    case OuterCommit => w.(pc := Crashed)
    case OuterReply => w.(pc := Crashed)
    case Done(_) => w
    case Crashed => w
    case _ => w.(pc := Outer)
  }

  function NextLibrary(cfg: Config, w: Worker, e: Event): Worker {
    match (w.pc, e)
    case (Launch(_), EngineError) => RefreshThen(cfg, w, Inner)
    case (Launch(_), CallRaises) => w.(pc := Inner)
    case (Launch(_), SoftTimeout) => w.(pc := Inner, session := w.session.SetStatus(TimedOut))
    case (Engine(_), EngineCommit) => w.(session := w.session.Commit())
    case (Engine(i), Rows(full)) => TakeRows(cfg, w, i, full)
    case (Engine(_), EngineError) => RefreshThen(cfg, w, Inner)
    case (Engine(_), SoftTimeout) => w.(pc := Inner, session := w.session.SetStatus(TimedOut))
    case (Engine(_), OAuthRedirect) => w.(pc := Inner)
    case (Store, Stored(key)) =>
      if cfg.storeResults && cfg.resultsBackend then
        w.(pc := Final, payload := w.payload.(resultsKey := Some(key)), session := w.session.SetResultsKey(Some(key)))
      else w
    case (Store, NotStored(key)) =>
      if !(cfg.storeResults && cfg.resultsBackend) then w
      else
        var cleared := w.(payload := w.payload.(resultsKey := Some(key)), session := w.session.SetResultsKey(None));
        if cfg.returnResults then cleared.(pc := Final)
        else cleared.(pc := Outer, session := cleared.session.SetStatus(Failed).Commit())
    case _ => w
  }

  /** A schedule is any sequence of events; an event the worker cannot take leaves it as it is. */
  function Run(cfg: Config, q: QueryId, w: Worker, events: seq<Event>): Worker {
    if events == [] then w
    else Next(cfg, q, Run(cfg, q, w, events[..|events| - 1]), events[|events| - 1])
  }

  // ----- All queries, one results backend -----

  datatype System = System(workers: map<QueryId, Worker>, backend: map<Key, Payload>, used: set<Key>)

  predicate Reuses(e: Event, used: set<Key>) {
    (e.Stored? || e.NotStored?) && e.key in used
  }

  /** Keys are drawn fresh: an event that would reuse one cannot happen. */
  function SystemNext(cfgs: map<QueryId, Config>, s: System, q: QueryId, e: Event): System {
    if q !in s.workers || q !in cfgs || Reuses(e, s.used) then s
    else
      var w := s.workers[q];
      var after := Next(cfgs[q], q, w, e);
      System(
        s.workers[q := after],
        if e.Stored? && w.pc.Store? && after.pc.Final? then s.backend[e.key := after.payload] else s.backend,
        if e.Stored? || e.NotStored? then s.used + {e.key} else s.used)
  }

  function SystemRun(cfgs: map<QueryId, Config>, s: System, steps: seq<(QueryId, Event)>): System {
    if steps == [] then s
    else
      var last := steps[|steps| - 1];
      SystemNext(cfgs, SystemRun(cfgs, s, steps[..|steps| - 1]), last.0, last.1)
  }
}
