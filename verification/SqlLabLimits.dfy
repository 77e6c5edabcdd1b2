/** Row limiting end to end: the limit each statement gets, the rows returned, the limiting factor. */
module SqlLabLimits {
  import opened Wrappers
  import opened QueryRow
  import opened SqlLab
  import opened SqlLabSafety

  // ----- The limits -----

  /** With a positive maximum, the limit is the request clamped to it, or the maximum by default; else the request. */
  lemma ClampedMeans(cfg: Config, requested: Option<nat>)
    ensures !Truthy(cfg.maxRow) ==> Clamped(cfg, requested) == requested
    ensures var l := Clamped(cfg, requested);
      Truthy(cfg.maxRow) ==>
      && Truthy(l) && l.value <= cfg.maxRow.value
      && (Truthy(requested) ==>
          l.value <= requested.value && (l.value == requested.value || l.value == cfg.maxRow.value))
      && (!Truthy(requested) ==> l == cfg.maxRow)
  {
  }

  /** One statement that does not mutate clamps the limit, unless the script is a CREATE TABLE AS without limit. */
  lemma {:induction false} LimitAfterMeans(cfg: Config, requested: Option<nat>, statements: seq<Statement>)
    ensures LimitAfter(cfg, requested, statements)
         == if !(cfg.ctasUsed && cfg.ctasNoLimit) && (exists s :: s in statements && !s.mutating)
            then Clamped(cfg, requested) else requested
  {
    if statements != [] {
      var n := |statements| - 1;
      LimitAfterMeans(cfg, requested, statements[..n]);
      assert forall s :: s in statements <==> s in statements[..n] || s == statements[n];
    }
  }

  /**
   * Every statement that does not mutate gets the same LIMIT, one more than the clamped request, unless
   * the script is a CREATE TABLE AS without limit.
   */
  lemma {:induction false} LimitsAreUniform(cfg: Config, requested: Option<nat>, statements: seq<Statement>, k: nat)
    requires k < |statements|
    ensures StatementLimits(cfg, requested, statements)[k]
         == if statements[k].mutating || (cfg.ctasUsed && cfg.ctasNoLimit) || !Truthy(Clamped(cfg, requested)) then None
            else Some(Clamped(cfg, requested).value + 1)
  {
    var n := |statements| - 1;
    if k < n {
      LimitsAreUniform(cfg, requested, statements[..n], k);
    } else {
      LimitAfterMeans(cfg, requested, statements);
      assert statements[n] in statements;
    }
  }

  // ----- The rows -----

  predicate LastIsLimited(cfg: Config) {
    Truthy(cfg.maxRow) && cfg.statements != [] && !Exempt(cfg, cfg.statements[|cfg.statements| - 1])
  }

  /** Whether the clamped limit outlives the first refresh of the row. */
  predicate LimitKept(cfg: Config, requested: Option<nat>) {
    cfg.flushes || cfg.cancelKey || Clamped(cfg, requested) == requested
  }

  predicate Past(pc: PC) {
    pc.Top? || pc.Announce? || pc.Launch? || pc.Engine? || pc.Build?
  }

  /** Before the loop: the request, then the clamped limit `l` pending. */
  predicate LimitSet(w: Worker, requested: Option<nat>, l: Option<nat>) {
    var s := w.session;
    && (w.pc.Start? || w.pc.Prepare? ==>
          s.row.limit == requested && s.changes.limit == None && (s.loaded.Some? ==> s.loaded.value.limit == requested))
    && (w.pc.Connect? ==>
          && s.row.limit == requested && s.loaded.Some? && s.loaded.value.limit == requested
          && s.changes.limit == (if l == requested then None else Some(l)))
  }

  predicate LimitsComputed(cfg: Config, w: Worker, requested: Option<nat>) {
    w.pc.Connect? || Past(w.pc) ==> w.limits == StatementLimits(cfg, requested, cfg.statements)
  }

  /** In the loop, when the limit was kept: every read gives `l`. */
  predicate ReadsClamped(cfg: Config, w: Worker, l: Option<nat>) {
    var s := w.session;
    Past(w.pc) ==>
      && (s.row.limit == l || (cfg.flushes && s.changes.limit == Some(l)))
      && (s.changes.limit == None || s.changes.limit == Some(l))
      && (s.loaded.Some? ==> s.changes.limit == Some(l) || s.loaded.value.limit == l)
  }

  /** In the loop, when the refresh discarded it: every read gives the request again. */
  predicate ReadsRequested(w: Worker, requested: Option<nat>) {
    var s := w.session;
    Past(w.pc) ==>
      && s.row.limit == requested && (s.loaded.Some? ==> s.loaded.value.limit == requested)
      && (!w.pc.Top? ==> s.changes.limit == None)
  }

  predicate LimitSound(cfg: Config, w: Worker, requested: Option<nat>) {
    && LimitSet(w, requested, Clamped(cfg, requested))
    && LimitsComputed(cfg, w, requested)
    && if LimitKept(cfg, requested) then ReadsClamped(cfg, w, Clamped(cfg, requested)) else ReadsRequested(w, requested)
  }

  lemma LimitSetStep(cfg: Config, q: QueryId, w: Worker, e: Event, requested: Option<nat>, l: Option<nat>)
    requires LimitSet(w, requested, l) && LimitsComputed(cfg, w, requested)
    requires LimitAfter(cfg, requested, cfg.statements) == l
    ensures LimitSet(Next(cfg, q, w, e), requested, l) && LimitsComputed(cfg, Next(cfg, q, w, e), requested)
  {
    hide StatementLimits, BlockCount, BlockLimit, Fetched, FetchedAll, Trimmed, LimitAfter;
  }

  lemma ReadsClampedOk(cfg: Config, q: QueryId, w: Worker, requested: Option<nat>, l: Option<nat>)
    requires ReadsClamped(cfg, w, l) && LimitSet(w, requested, l)
    requires cfg.flushes || cfg.cancelKey || l == requested
    ensures ReadsClamped(cfg, NextOk(cfg, q, w), l)
  {
    hide StatementLimits, BlockCount, LimitAfter;
  }

  lemma ReadsClampedLibrary(cfg: Config, w: Worker, e: Event, l: Option<nat>)
    requires ReadsClamped(cfg, w, l)
    ensures ReadsClamped(cfg, NextLibrary(cfg, w, e), l)
  {
    hide BlockLimit, Fetched, FetchedAll, Trimmed;
  }

  lemma ReadsClampedStep(cfg: Config, q: QueryId, w: Worker, e: Event, requested: Option<nat>, l: Option<nat>)
    requires ReadsClamped(cfg, w, l) && LimitSet(w, requested, l)
    requires cfg.flushes || cfg.cancelKey || l == requested
    ensures ReadsClamped(cfg, Next(cfg, q, w, e), l)
  {
    hide NextOk, NextLibrary, LimitSet;
    ReadsClampedOk(cfg, q, w, requested, l);
    ReadsClampedLibrary(cfg, w, e, l);
  }

  lemma ReadsRequestedStep(cfg: Config, q: QueryId, w: Worker, e: Event, requested: Option<nat>, l: Option<nat>)
    requires ReadsRequested(w, requested) && LimitSet(w, requested, l) && !cfg.flushes && !cfg.cancelKey
    ensures ReadsRequested(Next(cfg, q, w, e), requested)
  {
    hide StatementLimits, BlockCount, BlockLimit, Fetched, FetchedAll, Trimmed, LimitAfter;
  }

  lemma LimitSoundStep(cfg: Config, q: QueryId, w: Worker, e: Event, requested: Option<nat>)
    requires LimitSound(cfg, w, requested) && LastIsLimited(cfg)
    ensures LimitSound(cfg, Next(cfg, q, w, e), requested)
  {
    hide Next, LimitSet, LimitsComputed, ReadsClamped, ReadsRequested, Clamped;
    LimitAfterMeans(cfg, requested, cfg.statements);
    assert cfg.statements[|cfg.statements| - 1] in cfg.statements;
    var l := Clamped(cfg, requested);
    LimitSetStep(cfg, q, w, e, requested, l);
    if LimitKept(cfg, requested) {
      ReadsClampedStep(cfg, q, w, e, requested, l);
    } else {
      ReadsRequestedStep(cfg, q, w, e, requested, l);
    }
  }

  lemma {:induction false} LimitSoundRun(cfg: Config, q: QueryId, row: Row, events: seq<Event>)
    requires LastIsLimited(cfg)
    ensures LimitSound(cfg, Run(cfg, q, Initial(q, row), events), row.limit)
  {
    if events != [] {
      var n := |events| - 1;
      LimitSoundRun(cfg, q, row, events[..n]);
      LimitSoundStep(cfg, q, Run(cfg, q, Initial(q, row), events[..n]), events[n], row.limit);
      hide Next, LimitSound;
    }
  }

  lemma LastBlockLimit(cfg: Config, requested: Option<nat>)
    requires LastIsLimited(cfg)
    ensures BlockCount(cfg) > 0
    ensures BlockLimit(cfg, StatementLimits(cfg, requested, cfg.statements), BlockCount(cfg) - 1)
         == Some(Clamped(cfg, requested).value + 1)
  {
    ClampedMeans(cfg, requested);
    LimitsAreUniform(cfg, requested, cfg.statements, |cfg.statements| - 1);
  }

  /** Asking for one row more than the limit and trimming it leaves exactly the first `l` rows. */
  lemma FetchAndTrim(cfg: Config, l: nat, full: seq<Record>)
    ensures Trimmed(Some(l), Fetched(cfg, Some(l + 1), Some(l), full)) == First(l, full)
    ensures FetchedAll(Some(l), Fetched(cfg, Some(l + 1), Some(l), full)) <==> |full| <= l
  {
  }

  /**
   * The LIMIT of each block: that of its statement, or of the last statement when the script runs as one
   * block; none for a statement that mutates or a CREATE TABLE AS without limit.
   */
  lemma BlockLimitMeans(cfg: Config, requested: Option<nat>, i: nat)
    requires i < BlockCount(cfg) && cfg.statements != []
    ensures var s := cfg.statements[if cfg.asOneBlock then |cfg.statements| - 1 else i];
      BlockLimit(cfg, StatementLimits(cfg, requested, cfg.statements), i)
        == if s.mutating || (cfg.ctasUsed && cfg.ctasNoLimit) || !Truthy(Clamped(cfg, requested)) then None
           else Some(Clamped(cfg, requested).value + 1)
  {
    LimitsAreUniform(cfg, requested, cfg.statements, if cfg.asOneBlock then |cfg.statements| - 1 else i);
  }

  /** How many rows are kept of `n`, for any limits of the statement and the query: never others than the first. */
  function KeptCount(cfg: Config, blockLimit: Option<nat>, limit: Option<nat>, n: nat): nat {
    var asked := if cfg.fetchMany then (if limit.Some? then Some(limit.value + 1) else None) else blockLimit;
    var fetched := if asked.Some? && asked.value < n then asked.value else n;
    if limit.Some? && fetched > limit.value then fetched - 1 else fetched
  }

  lemma KeptRows(cfg: Config, blockLimit: Option<nat>, limit: Option<nat>, full: seq<Record>)
    ensures Trimmed(limit, Fetched(cfg, blockLimit, limit, full)) == full[..KeptCount(cfg, blockLimit, limit, |full|)]
  {
    var fetched := Fetched(cfg, blockLimit, limit, full);
    assert fetched <= full;
  }

  /** What taking a result leaves: the rows, whether they were all, and the factor. */
  lemma TakenRows(cfg: Config, w: Worker, i: nat, rows: seq<Record>)
    ensures var limit := w.session.View().limit;
      var fetched := Fetched(cfg, BlockLimit(cfg, w.limits, i), limit, rows);
      var t := TakeRows(cfg, w, i, rows);
      && t.data == Trimmed(limit, fetched) && t.fits == w.fits + [FetchedAll(limit, fetched)]
      && t.data == rows[..KeptCount(cfg, BlockLimit(cfg, w.limits, i), limit, |rows|)]
      && t.session.View().limit == limit
      && t.session.View().factor == if FetchedAll(limit, fetched) then NotLimited else w.session.View().factor
  {
    KeptRows(cfg, BlockLimit(cfg, w.limits, i), w.session.View().limit, rows);
    hide Fetched, BlockLimit, Trimmed, FetchedAll, KeptCount;
  }

  /** The limit that is read in the loop: the clamped request if it was kept, else the request. */
  lemma LimitRead(cfg: Config, q: QueryId, row: Row, events: seq<Event>)
    requires LastIsLimited(cfg) && Run(cfg, q, Initial(q, row), events).pc.Engine?
    ensures var w := Run(cfg, q, Initial(q, row), events);
      && w.session.View().limit == (if LimitKept(cfg, row.limit) then Clamped(cfg, row.limit) else row.limit)
      && w.limits == StatementLimits(cfg, row.limit, cfg.statements)
  {
    LimitSoundRun(cfg, q, row, events);
    hide Run, Clamped, StatementLimits;
  }

  lemma NotKept(cfg: Config, requested: Option<nat>)
    requires !LimitKept(cfg, requested)
    ensures Clamped(cfg, requested) != requested
  {
  }

  lemma NextTakes(cfg: Config, q: QueryId, w: Worker, i: nat, full: seq<Record>)
    requires w.pc == Engine(i)
    ensures Next(cfg, q, w, Rows(full)) == TakeRows(cfg, w, i, full)
  {
    hide TakeRows;
  }

  /** Reading the request where the statement was limited by another number shows in some result. */
  lemma RequestShows(cfg: Config, requested: Option<nat>)
    requires Truthy(cfg.maxRow) && Clamped(cfg, requested) != requested
    ensures var l := Clamped(cfg, requested).value;
      exists full :: Trimmed(requested, Fetched(cfg, Some(l + 1), requested, full)) != First(l, full)
  {
    var l := Clamped(cfg, requested).value;
    var full := seq(if Truthy(requested) || requested.None? then l + 1 else 1, _ => "");
    assert Trimmed(requested, Fetched(cfg, Some(l + 1), requested, full)) != First(l, full);
  }

  /**
   * For the last block the rows kept are the first `l` of the full result, for every result the
   * engine may give, exactly when the clamped limit outlived the first refresh.
   */
  lemma RowsExactIffLimitKept(cfg: Config, q: QueryId, row: Row, events: seq<Event>)
    requires LastIsLimited(cfg)
    requires BlockCount(cfg) > 0 && Run(cfg, q, Initial(q, row), events).pc == Engine(BlockCount(cfg) - 1)
    ensures var w := Run(cfg, q, Initial(q, row), events);
      (forall full :: Next(cfg, q, w, Rows(full)).data == First(Clamped(cfg, row.limit).value, full))
      <==> LimitKept(cfg, row.limit)
  {
    var w := Run(cfg, q, Initial(q, row), events);
    LimitRead(cfg, q, row, events);
    ClampedMeans(cfg, row.limit);
    LastBlockLimit(cfg, row.limit);
    var l := Clamped(cfg, row.limit).value;
    hide Run, Next, TakeRows, Fetched, Trimmed, First, BlockLimit, Clamped, StatementLimits, LimitKept;
    forall full
      ensures Next(cfg, q, w, Rows(full)).data
           == Trimmed(w.session.View().limit, Fetched(cfg, Some(l + 1), w.session.View().limit, full))
    {
      NextTakes(cfg, q, w, BlockCount(cfg) - 1, full);
      TakenRows(cfg, w, BlockCount(cfg) - 1, full);
    }
    if LimitKept(cfg, row.limit) {
      forall full ensures Next(cfg, q, w, Rows(full)).data == First(l, full) {
        FetchAndTrim(cfg, l, full);
      }
    } else {
      NotKept(cfg, row.limit);
      RequestShows(cfg, row.limit);
    }
  }

  // ----- The limiting factor -----

  predicate AnyFits(fits: seq<bool>) {
    true in fits
  }

  /** When refreshes flush, NOT_LIMITED stays once some block has set it. */
  predicate FactorSticks(w: Worker) {
    var s := w.session;
    && (s.row.factor == NotLimited || s.changes.factor == Some(NotLimited) <==> AnyFits(w.fits))
    && (s.changes.factor == None || s.changes.factor == Some(NotLimited))
    && (s.loaded.Some? && s.loaded.value.factor == NotLimited ==> s.row.factor == NotLimited)
    && (w.pc.Return? ==> s.changes.factor == None)
  }

  lemma FactorSticksOkInLoop(cfg: Config, q: QueryId, w: Worker)
    requires FactorSticks(w) && cfg.flushes && (w.pc.Start? || InLoop(w.pc))
    ensures FactorSticks(NextOk(cfg, q, w))
  {
    hide StatementLimits, BlockCount, LimitAfter, AnyFits;
  }

  lemma FactorSticksOkAfterLoop(cfg: Config, q: QueryId, w: Worker)
    requires FactorSticks(w) && !w.pc.Start? && !InLoop(w.pc)
    ensures FactorSticks(NextOk(cfg, q, w))
  {
    hide AnyFits;
  }

  lemma FactorSticksLibrary(cfg: Config, w: Worker, e: Event)
    requires FactorSticks(w) && cfg.flushes
    ensures FactorSticks(NextLibrary(cfg, w, e))
  {
    hide BlockLimit, Fetched, FetchedAll, Trimmed;
  }

  lemma FactorSticksStep(cfg: Config, q: QueryId, w: Worker, e: Event)
    requires FactorSticks(w) && cfg.flushes
    ensures FactorSticks(Next(cfg, q, w, e))
  {
    hide NextOk, NextLibrary, AnyFits;
    if w.pc.Start? || InLoop(w.pc) {
      FactorSticksOkInLoop(cfg, q, w);
    } else {
      FactorSticksOkAfterLoop(cfg, q, w);
    }
    FactorSticksLibrary(cfg, w, e);
  }

  predicate LastFits(fits: seq<bool>) {
    fits != [] && fits[|fits| - 1]
  }

  /** When refreshes discard, only the last block's NOT_LIMITED reaches the row. */
  predicate FactorIsLast(w: Worker) {
    var s := w.session;
    && (w.pc.Start? || InLoop(w.pc) || InTail(w.pc) ==>
          s.row.factor != NotLimited && (s.loaded.Some? ==> s.loaded.value.factor != NotLimited))
    && (w.pc.Start? || w.pc.Prepare? || w.pc.Connect? ==> w.fits == [] && s.changes.factor == None)
    && (w.pc.Announce? || w.pc.Launch? || w.pc.Engine? ==> s.changes.factor == None)
    && (w.pc.Build? || w.pc.Top? || InTail(w.pc) ==>
          s.changes.factor == (if LastFits(w.fits) then Some(NotLimited) else None))
    && (w.pc.Return? ==> s.changes.factor == None && (s.row.factor == NotLimited <==> LastFits(w.fits)))
  }

  lemma FactorIsLastOk(cfg: Config, q: QueryId, w: Worker)
    requires FactorIsLast(w) && !cfg.flushes
    ensures FactorIsLast(NextOk(cfg, q, w))
  {
    hide StatementLimits, BlockCount, LimitAfter;
  }

  lemma FactorIsLastLibrary(cfg: Config, w: Worker, e: Event)
    requires FactorIsLast(w) && !cfg.flushes
    ensures FactorIsLast(NextLibrary(cfg, w, e))
  {
    hide BlockLimit, Fetched, FetchedAll, Trimmed;
  }

  lemma FactorIsLastStep(cfg: Config, q: QueryId, w: Worker, e: Event)
    requires FactorIsLast(w) && !cfg.flushes
    ensures FactorIsLast(Next(cfg, q, w, e))
  {
    hide NextOk, NextLibrary, LastFits;
    FactorIsLastOk(cfg, q, w);
    FactorIsLastLibrary(cfg, w, e);
  }

  lemma {:induction false} FactorRun(cfg: Config, q: QueryId, row: Row, events: seq<Event>)
    requires row.factor != NotLimited
    ensures cfg.flushes ==> FactorSticks(Run(cfg, q, Initial(q, row), events))
    ensures !cfg.flushes ==> FactorIsLast(Run(cfg, q, Initial(q, row), events))
  {
    if events != [] {
      var n := |events| - 1;
      FactorRun(cfg, q, row, events[..n]);
      var w := Run(cfg, q, Initial(q, row), events[..n]);
      hide Next, FactorSticks, FactorIsLast;
      if cfg.flushes {
        FactorSticksStep(cfg, q, w, events[n]);
      } else {
        FactorIsLastStep(cfg, q, w, events[n]);
      }
    }
  }

  /**
   * The factor committed with SUCCESS. It is never reset between blocks: when refreshes flush, any
   * block that fit its limit leaves NOT_LIMITED behind, even if the last one was cut.
   */
  lemma CommittedFactor(cfg: Config, q: QueryId, row: Row, events: seq<Event>)
    requires row.factor != NotLimited && Run(cfg, q, Initial(q, row), events).pc.Return?
    ensures var w := Run(cfg, q, Initial(q, row), events);
      w.session.row.factor == NotLimited <==> if cfg.flushes then AnyFits(w.fits) else LastFits(w.fits)
  {
    hide Run;
    FactorRun(cfg, q, row, events);
  }

  // ----- Both together -----

  /** From the last block on: its rows, and whether they were all there were. */
  predicate LastRows(n: nat, w: Worker, l: nat) {
    && n > 0
    && (w.pc.Prepare? || w.pc.Connect? || w.pc.Start? ==> w.fits == [])
    && (w.pc.Top? ==> w.pc.i <= n && |w.fits| == w.pc.i)
    && (w.pc.Announce? || w.pc.Launch? || w.pc.Engine? ==> w.pc.i < n && |w.fits| == w.pc.i)
    && (w.pc.Build? ==> w.pc.i < n && |w.fits| == w.pc.i + 1)
    && (w.pc == Build(n - 1) || w.pc == Top(n) || InTail(w.pc) || w.pc.Return? ==>
          |w.fits| == n && w.data == First(l, w.full) && (LastFits(w.fits) <==> |w.full| <= l))
    && (w.pc.Store? || w.pc.Final? || w.pc.Return? ==> w.payload.status == Some(Success) && w.payload.data == w.data)
  }

  lemma LastRowsOk(cfg: Config, q: QueryId, w: Worker, n: nat, l: nat)
    requires LastRows(n, w, l) && BlockCount(cfg) == n
    ensures LastRows(n, NextOk(cfg, q, w), l)
  {
    hide StatementLimits, BlockCount, LimitAfter, First, LastFits;
  }

  lemma LastRowsLibrary(cfg: Config, w: Worker, e: Event, n: nat, l: nat)
    requires LastRows(n, w, l) && (w.pc == Engine(n - 1) ==> !e.Rows?)
    ensures LastRows(n, NextLibrary(cfg, w, e), l)
  {
    hide BlockLimit, Fetched, FetchedAll, Trimmed, First, LastFits;
  }

  lemma LastRowsTaken(cfg: Config, w: Worker, n: nat, l: nat, full: seq<Record>)
    requires LastRows(n, w, l) && w.pc == Engine(n - 1)
    requires BlockLimit(cfg, w.limits, n - 1) == Some(l + 1) && w.session.View().limit == Some(l)
    ensures LastRows(n, TakeRows(cfg, w, n - 1, full), l)
  {
    FetchAndTrim(cfg, l, full);
    hide BlockLimit, Fetched, FetchedAll, Trimmed, First;
  }

  lemma LastRowsStep(cfg: Config, q: QueryId, w: Worker, e: Event, n: nat, l: nat)
    requires LastRows(n, w, l) && BlockCount(cfg) == n
    requires w.pc == Engine(n - 1) ==>
      BlockLimit(cfg, w.limits, n - 1) == Some(l + 1) && w.session.View().limit == Some(l)
    ensures LastRows(n, Next(cfg, q, w, e), l)
  {
    hide NextOk, TakeRows;
    if w.pc == Engine(n - 1) && e.Rows? {
      LastRowsTaken(cfg, w, n, l, e.full);
    } else {
      LastRowsLibrary(cfg, w, e, n, l);
    }
    LastRowsOk(cfg, q, w, n, l);
  }

  lemma LastRowsInitially(cfg: Config, q: QueryId, row: Row, n: nat, l: nat)
    requires n > 0
    ensures LastRows(n, Run(cfg, q, Initial(q, row), []), l)
  {
  }

  lemma {:induction false} LastRowsRun(cfg: Config, q: QueryId, row: Row, events: seq<Event>)
    requires LastIsLimited(cfg) && LimitKept(cfg, row.limit)
    ensures Truthy(Clamped(cfg, row.limit))
    ensures LastRows(BlockCount(cfg), Run(cfg, q, Initial(q, row), events), Clamped(cfg, row.limit).value)
  {
    ClampedMeans(cfg, row.limit);
    LastBlockLimit(cfg, row.limit);
    hide Next, LastRows, Clamped, Initial, LastIsLimited, LimitKept;
    if events == [] {
      LastRowsInitially(cfg, q, row, BlockCount(cfg), Clamped(cfg, row.limit).value);
    } else {
      var n := |events| - 1;
      LastRowsRun(cfg, q, row, events[..n]);
      LimitSoundRun(cfg, q, row, events[..n]);
      var w := Run(cfg, q, Initial(q, row), events[..n]);
      LastRowsStep(cfg, q, w, events[n], BlockCount(cfg), Clamped(cfg, row.limit).value);
    }
  }

  /**
   * Row limiting end to end: with a positive maximum and a last statement that is limited, the rows
   * a successful run stores and returns are the first min(n, l) of the n rows the last block has,
   * where l is the clamped request; for one block the factor is NOT_LIMITED exactly when n <= l.
   */
  lemma SuccessReturnsFirstRows(cfg: Config, q: QueryId, row: Row, events: seq<Event>)
    requires LastIsLimited(cfg) && LimitKept(cfg, row.limit) && row.factor != NotLimited
    requires Run(cfg, q, Initial(q, row), events).pc.Return?
    ensures var w := Run(cfg, q, Initial(q, row), events);
      var l := Clamped(cfg, row.limit);
      && Truthy(l) && w.payload.status == Some(Success)
      && w.payload.data == First(l.value, w.full)
      && (BlockCount(cfg) == 1 ==> (w.session.row.factor == NotLimited <==> |w.full| <= l.value))
  {
    hide Run;
    LastRowsRun(cfg, q, row, events);
    FactorRun(cfg, q, row, events);
    var w := Run(cfg, q, Initial(q, row), events);
    if |w.fits| == 1 {
      assert AnyFits(w.fits) <==> w.fits[0];
    }
  }

  // ----- A factor left behind -----

  /** Every block is empty but the last, which gives these rows; otherwise everything goes well. */
  function CutEvent(cfg: Config, pc: PC, full: seq<Record>): Event {
    if pc.Engine? && pc.i + 1 == BlockCount(cfg) then Rows(full) else GoodEvent(cfg, pc)
  }

  predicate CutTrack(cfg: Config, w: Worker, full: seq<Record>) {
    && !w.pc.Done?
    && (w.pc.Start? || w.pc.Prepare? || w.pc.Connect? ==> w.fits == [])
    && (w.pc.Top? || w.pc.Announce? || w.pc.Launch? || w.pc.Engine? ==> |w.fits| == w.pc.i)
    && (w.pc.Build? ==> |w.fits| == w.pc.i + 1)
    && (InTail(w.pc) || w.pc.Return? ==> |w.fits| == BlockCount(cfg))
    && (|w.fits| > 0 ==> w.fits[0])
    && (|w.fits| == BlockCount(cfg) ==> w.full == full)
  }

  lemma CutOk(cfg: Config, q: QueryId, w: Worker, full: seq<Record>)
    requires OnCourse(cfg, w) && CutTrack(cfg, w, full) && BlockCount(cfg) >= 2
    requires !w.pc.Engine? && !w.pc.Return?
    ensures CutTrack(cfg, Next(cfg, q, w, GoodEvent(cfg, w.pc)), full)
  {
    hide LimitAfter, StatementLimits, BlockCount;
  }

  lemma CutRows(cfg: Config, q: QueryId, w: Worker, full: seq<Record>)
    requires OnCourse(cfg, w) && CutTrack(cfg, w, full) && BlockCount(cfg) >= 2 && w.pc.Engine?
    ensures var after := Next(cfg, q, w, CutEvent(cfg, w.pc, full));
      after.pc == Build(w.pc.i) && OnCourse(cfg, after) && CutTrack(cfg, after, full)
  {
    hide BlockCount, BlockLimit;
  }

  lemma {:induction false} CutLastBlock(cfg: Config, q: QueryId, w: Worker, full: seq<Record>)
    returns (events: seq<Event>)
    requires OnCourse(cfg, w) && CutTrack(cfg, w, full) && BlockCount(cfg) >= 2
    ensures Run(cfg, q, w, events).pc.Return? && CutTrack(cfg, Run(cfg, q, w, events), full)
    decreases Remaining(cfg, w.pc)
  {
    hide Next, Remaining, OnCourse, CutTrack, BlockCount;
    if w.pc.Return? {
      events := [];
    } else {
      var e := CutEvent(cfg, w.pc, full);
      if w.pc.Engine? {
        CutRows(cfg, q, w, full);
      } else {
        NotDone(cfg, w, full);
        OnCourseStep(cfg, q, w);
        CutOk(cfg, q, w, full);
      }
      StepDescends(cfg, q, w, e);
      var rest := CutLastBlock(cfg, q, Next(cfg, q, w, e), full);
      events := [e] + rest;
      OneEvent(cfg, q, w, e);
      RunAppend(cfg, q, w, [e], rest);
    }
  }

  lemma NotDone(cfg: Config, w: Worker, full: seq<Record>)
    requires CutTrack(cfg, w, full)
    ensures !w.pc.Done?
  {
  }

  /**
   * With several blocks and refreshes that flush, some run of every query commits NOT_LIMITED with
   * SUCCESS although the rows of its last block were cut.
   */
  lemma FactorLeftBehind(cfg: Config, q: QueryId, row: Row) returns (events: seq<Event>)
    requires FreshRow(row) && row.status != Stopped && row.factor != NotLimited
    requires cfg.flushes && BlockCount(cfg) >= 2 && LastIsLimited(cfg)
    ensures var w := Run(cfg, q, Initial(q, row), events);
      var l := Clamped(cfg, row.limit);
      && w.pc.Return? && w.session.row.factor == NotLimited
      && Truthy(l) && |w.full| > l.value && w.payload.data == First(l.value, w.full)
  {
    ClampedMeans(cfg, row.limit);
    var full: seq<Record> := seq(Clamped(cfg, row.limit).value + 1, _ => "");
    events := CutLastBlock(cfg, q, Initial(q, row), full);
    hide Run, Clamped, First;
    CommittedFactor(cfg, q, row, events);
    SuccessReturnsFirstRows(cfg, q, row, events);
    var w := Run(cfg, q, Initial(q, row), events);
    assert w.fits[0] in w.fits;
  }
}
