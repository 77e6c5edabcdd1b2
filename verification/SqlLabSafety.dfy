/** What every run of the SQL Lab worker keeps, whatever the schedule. */
module SqlLabSafety {
  import opened Wrappers
  import opened QueryRow
  import opened SqlLab

  // ----- Terminal states -----

  predicate Terminal(s: Status) {
    s == Success || s == Failed || s == Stopped
  }

  /** A query row that no worker has run yet. */
  predicate FreshRow(row: Row) {
    !(row.status == Success || row.status == Failed || row.status == TimedOut) && row.resultsKey == None
  }

  /** A finished row has its end time, and TIMED_OUT is never committed. */
  predicate RowSound(row: Row) {
    row.status != TimedOut && (row.status == Success || row.status == Failed ==> row.ended)
  }

  predicate InLoop(pc: PC) {
    pc.Prepare? || pc.Connect? || pc.Top? || pc.Announce? || pc.Launch? || pc.Engine? || pc.Build?
  }

  predicate InTail(pc: PC) {
    pc.Serialize? || pc.Store? || pc.Final?
  }

  predicate InHandler(pc: PC) {
    pc.Inner? || pc.Outer? || pc.InnerCommit? || pc.OuterCommit? || pc.InnerReply? || pc.OuterReply?
  }

  predicate HandlerCommits(pc: PC) {
    pc.InnerCommit? || pc.OuterCommit?
  }

  predicate HandlerReplies(pc: PC) {
    pc.InnerReply? || pc.OuterReply?
  }

  /** Inside the handler that `get_sql_results` calls, where an exception is not caught any more. */
  predicate InOuterHandler(pc: PC) {
    pc.Outer? || pc.OuterCommit? || pc.OuterReply?
  }

  predicate EndsRow(s: Session) {
    s.changes.ended == Some(true) || (s.changes.ended == None && s.row.ended)
  }

  /** What the session may hold back and may have read, at each point of the run. */
  predicate SessionSound(w: Worker) {
    var s := w.session;
    && RowSound(s.row)
    && s.changes.ended != Some(false)
    && (s.loaded.Some? && s.loaded.value.ended ==> s.row.ended)
    && (s.loaded.Some? && Terminal(s.loaded.value.status) ==> Terminal(s.row.status))
    && (w.pc.Start? || w.pc.Crashed? || InHandler(w.pc) || s.changes.status == None)
    && (InTail(w.pc) || HandlerCommits(w.pc) ==> EndsRow(s))
    && (HandlerCommits(w.pc) ==>
          s.changes.status == Some(Failed) || (s.changes.status == None && Terminal(s.row.status)))
    && (w.pc.Start? || HandlerReplies(w.pc) ==> s.changes == CLEAN)
    && (w.pc.Return? || w.pc.Done? || HandlerReplies(w.pc) ==> Terminal(s.row.status))
  }

  lemma SoundOkBeforeLoop(cfg: Config, q: QueryId, w: Worker)
    requires SessionSound(w) && (w.pc.Start? || w.pc.Prepare? || w.pc.Connect?)
    ensures SessionSound(NextOk(cfg, q, w))
  {
    hide LimitAfter, StatementLimits, BlockCount;
  }

  lemma SoundOkInBlock(cfg: Config, q: QueryId, w: Worker)
    requires SessionSound(w) && (w.pc.Top? || w.pc.Announce? || w.pc.Launch? || w.pc.Engine? || w.pc.Build?)
    ensures SessionSound(NextOk(cfg, q, w))
  {
    hide BlockCount;
  }

  lemma SoundOkInTail(cfg: Config, q: QueryId, w: Worker)
    requires SessionSound(w) && !w.pc.Start? && !InLoop(w.pc) && !InHandler(w.pc)
    ensures SessionSound(NextOk(cfg, q, w))
  {
  }

  lemma SoundOkHandling(cfg: Config, q: QueryId, w: Worker)
    requires SessionSound(w) && (w.pc.Inner? || w.pc.Outer?)
    ensures SessionSound(NextOk(cfg, q, w))
  {
  }

  lemma SoundOkHandled(cfg: Config, q: QueryId, w: Worker)
    requires SessionSound(w) && (HandlerCommits(w.pc) || HandlerReplies(w.pc))
    ensures SessionSound(NextOk(cfg, q, w))
  {
  }

  lemma SoundOkInHandler(cfg: Config, q: QueryId, w: Worker)
    requires SessionSound(w) && InHandler(w.pc)
    ensures SessionSound(NextOk(cfg, q, w))
  {
    hide NextOk, SessionSound;
    if w.pc.Inner? || w.pc.Outer? {
      SoundOkHandling(cfg, q, w);
    } else {
      SoundOkHandled(cfg, q, w);
    }
  }

  lemma SoundRaise(w: Worker)
    requires SessionSound(w)
    ensures SessionSound(NextRaise(w))
  {
  }

  lemma SoundEngine(cfg: Config, w: Worker, e: Event)
    requires SessionSound(w) && !w.pc.Store?
    ensures SessionSound(NextLibrary(cfg, w, e))
  {
    hide Fetched, Trimmed, BlockLimit, FetchedAll;
  }

  lemma SoundWrite(cfg: Config, w: Worker, e: Event)
    requires SessionSound(w) && w.pc.Store?
    ensures SessionSound(NextLibrary(cfg, w, e))
  {
  }

  lemma SoundLibrary(cfg: Config, w: Worker, e: Event)
    requires SessionSound(w)
    ensures SessionSound(NextLibrary(cfg, w, e))
  {
    hide NextLibrary, SessionSound;
    if w.pc.Store? {
      SoundWrite(cfg, w, e);
    } else {
      SoundEngine(cfg, w, e);
    }
  }

  lemma SoundStep(cfg: Config, q: QueryId, w: Worker, e: Event)
    requires SessionSound(w)
    ensures SessionSound(Next(cfg, q, w, e))
  {
    hide NextOk, NextRaise, NextLibrary;
    if w.pc.Start? || w.pc.Prepare? || w.pc.Connect? {
      SoundOkBeforeLoop(cfg, q, w);
    } else if InLoop(w.pc) {
      SoundOkInBlock(cfg, q, w);
    } else if InHandler(w.pc) {
      SoundOkInHandler(cfg, q, w);
    } else {
      SoundOkInTail(cfg, q, w);
    }
    SoundRaise(w);
    SoundLibrary(cfg, w, e);
  }

  lemma {:induction false} RunSound(cfg: Config, q: QueryId, row: Row, events: seq<Event>)
    requires FreshRow(row)
    ensures SessionSound(Run(cfg, q, Initial(q, row), events))
  {
    hide Next;
    if events != [] {
      var n := |events| - 1;
      RunSound(cfg, q, row, events[..n]);
      SoundStep(cfg, q, Run(cfg, q, Initial(q, row), events[..n]), events[n]);
    }
  }

  /** Whatever the schedule: a returned run has left SUCCESS, FAILED or STOPPED in the row. */
  lemma EveryRunEndsTerminal(cfg: Config, q: QueryId, row: Row, events: seq<Event>)
    requires FreshRow(row)
    ensures var w := Run(cfg, q, Initial(q, row), events);
      && (w.pc.Done? ==> Terminal(w.session.row.status))
      && w.session.row.status != TimedOut
      && (w.session.row.status == Success || w.session.row.status == Failed ==> w.session.row.ended)
  {
    hide Run;
    RunSound(cfg, q, row, events);
  }

  predicate RaisesInOuterHandler(cfg: Config, q: QueryId, w: Worker, events: seq<Event>, k: nat)
    requires k < |events|
  {
    events[k] == Raise && InOuterHandler(Run(cfg, q, w, events[..k]).pc)
  }

  /** The exceptions that leave `get_sql_results` are exactly those inside its own error handler. */
  lemma {:induction false} CrashIffRaisedInOuterHandler(cfg: Config, q: QueryId, w: Worker, events: seq<Event>)
    requires !w.pc.Crashed?
    ensures Run(cfg, q, w, events).pc.Crashed? <==>
      exists k: nat :: k < |events| && RaisesInOuterHandler(cfg, q, w, events, k)
  {
    hide Next;
    if events != [] {
      var n := |events| - 1;
      CrashIffRaisedInOuterHandler(cfg, q, w, events[..n]);
      forall k: nat | k < n
        ensures RaisesInOuterHandler(cfg, q, w, events, k) <==> RaisesInOuterHandler(cfg, q, w, events[..n], k)
      {
        assert events[..n][..k] == events[..k];
      }
      CrashStep(cfg, q, Run(cfg, q, w, events[..n]), events[n]);
      assert RaisesInOuterHandler(cfg, q, w, events, n) <==>
        events[n] == Raise && InOuterHandler(Run(cfg, q, w, events[..n]).pc);
    }
  }

  lemma {:induction false} CrashedStays(cfg: Config, q: QueryId, w: Worker, events: seq<Event>)
    requires w.pc.Crashed?
    ensures var end := Run(cfg, q, w, events);
      && end.pc.Crashed?
      && end.session.row.status == if Stop in events then Stopped else w.session.row.status
  {
    if events != [] {
      var n := |events| - 1;
      CrashedStays(cfg, q, w, events[..n]);
      assert Stop in events <==> Stop in events[..n] || events[n] == Stop;
    }
  }

  /**
   * What such an exception leaves, for every schedule: the row is finished exactly when the handler
   * had already committed, or it was finished before, or a stop comes later.
   */
  lemma CrashedRowFinishedIff(cfg: Config, q: QueryId, row: Row, before: seq<Event>, after: seq<Event>)
    requires FreshRow(row) && InOuterHandler(Run(cfg, q, Initial(q, row), before).pc)
    ensures var w := Run(cfg, q, Initial(q, row), before);
      var end := Run(cfg, q, Next(cfg, q, w, Raise), after);
      && end.pc.Crashed?
      && (Terminal(end.session.row.status) <==>
            w.pc.OuterReply? || Terminal(w.session.row.status) || Stop in after)
  {
    RunSound(cfg, q, row, before);
    hide Run;
    CrashedStays(cfg, q, Next(cfg, q, Run(cfg, q, Initial(q, row), before), Raise), after);
  }

  /** Two exceptions in a row, one in the worker and one in the handler, leave a PENDING row PENDING. */
  lemma CrashCanLeavePending(cfg: Config, q: QueryId, row: Row)
    requires FreshRow(row) && row.status == Pending
    ensures var end := Run(cfg, q, Initial(q, row), [Raise, Raise]);
      end.pc.Crashed? && end.session.row.status == Pending && !Terminal(end.session.row.status)
  {
    var w := Initial(q, row);
    assert [Raise, Raise][..1] == [Raise];
    assert [Raise][..0] == [];
    assert Run(cfg, q, w, []) == w;
    assert Run(cfg, q, w, [Raise]) == Next(cfg, q, w, Raise);
  }

  lemma CrashStep(cfg: Config, q: QueryId, w: Worker, e: Event)
    ensures Next(cfg, q, w, e).pc.Crashed? <==> w.pc.Crashed? || (e == Raise && InOuterHandler(w.pc))
  {
  }

  // ----- Every run is finite -----

  function BlocksLeft(cfg: Config, i: nat): nat {
    if i < BlockCount(cfg) then BlockCount(cfg) - i else 1
  }

  /** An upper bound on the worker's remaining steps. */
  function Remaining(cfg: Config, pc: PC): nat {
    match pc
    case Start => 11 + 5 * BlockCount(cfg)
    case Prepare => 10 + 5 * BlockCount(cfg)
    case Connect => 9 + 5 * BlockCount(cfg)
    case Top(i) => if i < BlockCount(cfg) then 8 + 5 * BlocksLeft(cfg, i) else 8
    case Announce(i) => 7 + 5 * BlocksLeft(cfg, i)
    case Launch(i) => 6 + 5 * BlocksLeft(cfg, i)
    case Engine(i) => 5 + 5 * BlocksLeft(cfg, i)
    case Build(i) => 4 + 5 * BlocksLeft(cfg, i)
    case Serialize => 7
    case Store => 6
    case Final => 5
    case Return => 4
    case Inner => 6
    case InnerCommit => 5
    case InnerReply => 4
    case Outer => 3
    case OuterCommit => 2
    case OuterReply => 1
    case Done(_) => 0
    case Crashed => 0
  }

  lemma OkDescends(cfg: Config, q: QueryId, w: Worker)
    ensures NextOk(cfg, q, w).pc != w.pc ==> Remaining(cfg, NextOk(cfg, q, w).pc) < Remaining(cfg, w.pc)
  {
    hide LimitAfter, StatementLimits, BlockCount;
  }

  lemma RaiseDescends(cfg: Config, w: Worker)
    ensures NextRaise(w).pc != w.pc ==> Remaining(cfg, NextRaise(w).pc) < Remaining(cfg, w.pc)
  {
    hide BlockCount;
  }

  lemma LibraryDescends(cfg: Config, w: Worker, e: Event)
    ensures NextLibrary(cfg, w, e).pc != w.pc ==> Remaining(cfg, NextLibrary(cfg, w, e).pc) < Remaining(cfg, w.pc)
  {
    hide BlockCount, BlockLimit, Fetched, FetchedAll, Trimmed;
  }

  lemma StepDescends(cfg: Config, q: QueryId, w: Worker, e: Event)
    ensures Next(cfg, q, w, e).pc != w.pc ==> Remaining(cfg, Next(cfg, q, w, e).pc) < Remaining(cfg, w.pc)
  {
    hide NextOk, NextRaise, NextLibrary, Remaining;
    OkDescends(cfg, q, w);
    RaiseDescends(cfg, w);
    LibraryDescends(cfg, w, e);
  }

  /** How many events moved the worker. */
  function Moves(cfg: Config, q: QueryId, w: Worker, events: seq<Event>): nat {
    if events == [] then 0
    else
      var before := Run(cfg, q, w, events[..|events| - 1]);
      Moves(cfg, q, w, events[..|events| - 1])
      + (if Next(cfg, q, before, events[|events| - 1]).pc != before.pc then 1 else 0)
  }

  /** No schedule makes the worker take more than 11 + 5 * blocks steps. */
  lemma {:induction false} RunsAreBounded(cfg: Config, q: QueryId, w: Worker, events: seq<Event>)
    ensures Moves(cfg, q, w, events) + Remaining(cfg, Run(cfg, q, w, events).pc) <= Remaining(cfg, w.pc)
  {
    hide Next, Remaining;
    if events != [] {
      var n := |events| - 1;
      RunsAreBounded(cfg, q, w, events[..n]);
      StepDescends(cfg, q, Run(cfg, q, w, events[..n]), events[n]);
    }
  }

  /** Until it has returned or crashed, the worker can move. */
  lemma NeverStuck(cfg: Config, q: QueryId, w: Worker)
    requires !w.pc.Done? && !w.pc.Crashed?
    ensures exists e :: e != Stop && e != Reload && Next(cfg, q, w, e).pc != w.pc
  {
    var writes := w.pc.Store? && cfg.storeResults && cfg.resultsBackend;
    var e := if w.pc.Engine? then Rows([]) else if writes then Stored("") else Ok;
    assert Next(cfg, q, w, e).pc != w.pc;
  }

  // ----- Stopping -----

  /** Until the worker decides the outcome, nothing it has seen or written says that it is decided. */
  predicate Undecided(w: Worker) {
    w.pc.Start? || InLoop(w.pc) || InTail(w.pc) ==>
      && w.session.row.status != Success && w.session.row.status != Failed
      && (w.session.loaded.Some? ==>
          w.session.loaded.value.status != Success && w.session.loaded.value.status != Failed)
      && w.session.changes.status == None
  }

  lemma UndecidedOk(cfg: Config, q: QueryId, w: Worker)
    requires Undecided(w)
    ensures Undecided(NextOk(cfg, q, w))
  {
    hide LimitAfter, StatementLimits, BlockCount;
  }

  lemma UndecidedLibrary(cfg: Config, w: Worker, e: Event)
    requires Undecided(w)
    ensures Undecided(NextLibrary(cfg, w, e))
  {
    hide BlockLimit, Fetched, FetchedAll, Trimmed;
  }

  lemma UndecidedStep(cfg: Config, q: QueryId, w: Worker, e: Event)
    requires Undecided(w)
    ensures Undecided(Next(cfg, q, w, e))
  {
    hide NextOk, NextLibrary;
    UndecidedOk(cfg, q, w);
    UndecidedLibrary(cfg, w, e);
  }

  predicate RefreshedBeforeBlocks(w: Worker) {
    w.refreshes == 0 ==> w.started == 0 && !w.pc.Announce? && !w.pc.Launch? && !w.pc.Engine? && !w.pc.Build?
  }

  lemma {:induction false} RunUndecided(cfg: Config, q: QueryId, row: Row, events: seq<Event>)
    requires FreshRow(row)
    ensures Undecided(Run(cfg, q, Initial(q, row), events))
    ensures RefreshedBeforeBlocks(Run(cfg, q, Initial(q, row), events))
  {
    if events != [] {
      var n := |events| - 1;
      RunUndecided(cfg, q, row, events[..n]);
      var w := Run(cfg, q, Initial(q, row), events[..n]);
      UndecidedStep(cfg, q, w, events[n]);
      RefreshedStep(cfg, q, w, events[n]);
      hide Next;
    }
  }

  lemma RefreshedStep(cfg: Config, q: QueryId, w: Worker, e: Event)
    requires RefreshedBeforeBlocks(w)
    ensures RefreshedBeforeBlocks(Next(cfg, q, w, e))
  {
    hide LimitAfter, StatementLimits, BlockCount, BlockLimit, Fetched, FetchedAll, Trimmed;
  }

  /** The worker has passed the check of its current block but not yet started it. */
  function AboutToStart(pc: PC): nat {
    if pc.Announce? || pc.Launch? then 1 else 0
  }

  /** In the loop the stop stands, so the next refresh ends the run. */
  predicate StopStands(w: Worker, bound: nat) {
    && !w.pc.Start?
    && (InLoop(w.pc) ==> w.session.row.status == Stopped && w.session.changes.status == None)
    && w.started + AboutToStart(w.pc) <= bound
  }

  lemma StopStandsStep(cfg: Config, q: QueryId, w: Worker, e: Event, bound: nat)
    requires StopStands(w, bound)
    ensures StopStands(Next(cfg, q, w, e), bound)
  {
    hide LimitAfter, StatementLimits, BlockCount, BlockLimit, Fetched, FetchedAll, Trimmed;
  }

  lemma {:induction false} StopStandsRun(cfg: Config, q: QueryId, w: Worker, events: seq<Event>, bound: nat)
    requires StopStands(w, bound)
    ensures StopStands(Run(cfg, q, w, events), bound)
  {
    hide Next, StopStands;
    if events != [] {
      var n := |events| - 1;
      StopStandsRun(cfg, q, w, events[..n], bound);
      StopStandsStep(cfg, q, Run(cfg, q, w, events[..n]), events[n], bound);
    }
  }

  /**
   * A stop committed after the RUNNING commit lets at most one more block start, and only if the
   * worker had already checked for that block; before the first check, none.
   */
  lemma StopLimitsBlocks(cfg: Config, q: QueryId, row: Row, before: seq<Event>, after: seq<Event>)
    requires FreshRow(row) && !Run(cfg, q, Initial(q, row), before).pc.Start?
    ensures var w := Run(cfg, q, Initial(q, row), before);
      var end := Run(cfg, q, Next(cfg, q, w, Stop), after);
      && end.started <= w.started + AboutToStart(w.pc)
      && (w.refreshes == 0 ==> end.started == 0)
  {
    hide Run;
    RunUndecided(cfg, q, row, before);
    var w := Run(cfg, q, Initial(q, row), before);
    StopStandsRun(cfg, q, Next(cfg, q, w, Stop), after, w.started + AboutToStart(w.pc));
  }

  /** Neither a timeout, nor an OAuth redirect, nor an error outside the engine call. */
  predicate Undisturbed(e: Event) {
    e != Raise && e != CallRaises && e != SoftTimeout && e != OAuthRedirect
  }

  /** After a stop: not refreshed yet, or refreshed once and ended STOPPED. */
  predicate Honours(w: Worker, refreshes: nat) {
    && !w.pc.Start? && !w.pc.Inner? && !w.pc.InnerCommit? && !w.pc.InnerReply?
    && if w.refreshes == refreshes then
         InLoop(w.pc) ==> w.session.row.status == Stopped && w.session.changes.status == None
       else
         w.pc.Done? && w.pc.result.Some? && w.pc.result.value.status == Some(Stopped) && w.session.row.status == Stopped
  }

  lemma HonoursOk(cfg: Config, q: QueryId, w: Worker, refreshes: nat)
    requires Honours(w, refreshes)
    ensures Honours(NextOk(cfg, q, w), refreshes)
  {
    hide LimitAfter, StatementLimits, BlockCount;
  }

  lemma HonoursLibrary(cfg: Config, w: Worker, e: Event, refreshes: nat)
    requires Honours(w, refreshes) && Undisturbed(e)
    ensures Honours(NextLibrary(cfg, w, e), refreshes)
  {
    hide BlockLimit, Fetched, FetchedAll, Trimmed;
  }

  lemma HonoursStep(cfg: Config, q: QueryId, w: Worker, e: Event, refreshes: nat)
    requires Honours(w, refreshes) && Undisturbed(e)
    ensures Honours(Next(cfg, q, w, e), refreshes)
  {
    hide NextOk, NextLibrary;
    HonoursOk(cfg, q, w, refreshes);
    HonoursLibrary(cfg, w, e, refreshes);
  }

  lemma {:induction false} HonoursRun(cfg: Config, q: QueryId, w: Worker, events: seq<Event>, refreshes: nat)
    requires Honours(w, refreshes) && forall e :: e in events ==> Undisturbed(e)
    ensures Honours(Run(cfg, q, w, events), refreshes)
  {
    hide Next, Honours, Undisturbed;
    if events != [] {
      var n := |events| - 1;
      HonoursRun(cfg, q, w, events[..n], refreshes);
      HonoursStep(cfg, q, Run(cfg, q, w, events[..n]), events[n], refreshes);
    }
  }

  /** A stop that a later refresh of the worker can see ends the run with the row STOPPED. */
  lemma StopBeforeLastRefreshIsHonoured(cfg: Config, q: QueryId, row: Row, before: seq<Event>, after: seq<Event>)
    requires FreshRow(row)
    requires var pc := Run(cfg, q, Initial(q, row), before).pc; InLoop(pc) || InTail(pc)
    requires forall e :: e in after ==> Undisturbed(e)
    ensures var w := Run(cfg, q, Initial(q, row), before);
      var end := Run(cfg, q, Next(cfg, q, w, Stop), after);
      end.refreshes != w.refreshes ==>
        && end.session.row.status == Stopped
        && end.pc.Done? && end.pc.result.Some? && end.pc.result.value.status == Some(Stopped)
  {
    hide Run;
    RunUndecided(cfg, q, row, before);
    var w := Run(cfg, q, Initial(q, row), before);
    HonoursRun(cfg, q, Next(cfg, q, w, Stop), after, w.refreshes);
  }

  /** Nothing but the worker's own success can follow: no disturbance, no stop, no failed async write. */
  predicate Smooth(cfg: Config, e: Event) {
    Undisturbed(e) && e != Stop && (e.NotStored? ==> cfg.returnResults)
  }

  /** Without a further refresh the worker goes on to write SUCCESS over whatever the row says. */
  predicate Overwrites(w: Worker, refreshes: nat) {
    w.refreshes == refreshes ==>
      && Undecided(w)
      && (InLoop(w.pc) || InTail(w.pc) || ((w.pc.Return? || w.pc.Done?) && w.session.row.status == Success))
  }

  lemma OverwritesStep(cfg: Config, q: QueryId, w: Worker, e: Event, refreshes: nat)
    requires Overwrites(w, refreshes) && Smooth(cfg, e) && BlockCount(cfg) > 0 && refreshes <= w.refreshes
    ensures Overwrites(Next(cfg, q, w, e), refreshes) && w.refreshes <= Next(cfg, q, w, e).refreshes
  {
    hide LimitAfter, StatementLimits, BlockCount, BlockLimit, Fetched, FetchedAll, Trimmed;
  }

  lemma {:induction false} OverwritesRun(cfg: Config, q: QueryId, w: Worker, events: seq<Event>, refreshes: nat)
    requires Overwrites(w, refreshes) && BlockCount(cfg) > 0 && refreshes <= w.refreshes
    requires forall e :: e in events ==> Smooth(cfg, e)
    ensures Overwrites(Run(cfg, q, w, events), refreshes) && refreshes <= Run(cfg, q, w, events).refreshes
  {
    hide Next, Overwrites, Smooth;
    if events != [] {
      var n := |events| - 1;
      OverwritesRun(cfg, q, w, events[..n], refreshes);
      OverwritesStep(cfg, q, Run(cfg, q, w, events[..n]), events[n], refreshes);
    }
  }

  /**
   * Exactly when a stop wins: in a run that goes smoothly from the stop on, the row ends STOPPED if
   * and only if the worker refreshed once more; otherwise it ends SUCCESS and the stop is lost.
   */
  lemma StopWinsIffRefreshed(cfg: Config, q: QueryId, row: Row, before: seq<Event>, after: seq<Event>)
    requires FreshRow(row) && BlockCount(cfg) > 0
    requires var pc := Run(cfg, q, Initial(q, row), before).pc; InLoop(pc) || InTail(pc)
    requires forall e :: e in after ==> Smooth(cfg, e)
    requires Run(cfg, q, Next(cfg, q, Run(cfg, q, Initial(q, row), before), Stop), after).pc.Done?
    ensures var w := Run(cfg, q, Initial(q, row), before);
      var end := Run(cfg, q, Next(cfg, q, w, Stop), after);
      && (end.session.row.status == Stopped <==> end.refreshes > w.refreshes)
      && (end.session.row.status == Success <==> end.refreshes == w.refreshes)
  {
    hide Run;
    StopBeforeLastRefreshIsHonoured(cfg, q, row, before, after);
    RunUndecided(cfg, q, row, before);
    var w := Run(cfg, q, Initial(q, row), before);
    OverwritesRun(cfg, q, Next(cfg, q, w, Stop), after, w.refreshes);
  }

  // ----- Where a stop must come -----

  /** The worker will still check for a stop if nothing goes wrong: a block has not been checked for yet. */
  predicate WillCheck(cfg: Config, pc: PC) {
    match pc
    case Prepare => BlockCount(cfg) > 0
    case Connect => BlockCount(cfg) > 0
    case Top(i) => i < BlockCount(cfg)
    case Announce(i) => i + 1 < BlockCount(cfg)
    case Launch(i) => i + 1 < BlockCount(cfg)
    case Engine(i) => i + 1 < BlockCount(cfg)
    case Build(i) => i + 1 < BlockCount(cfg)
    case _ => false
  }

  predicate EngineFails(w: Worker, e: Event) {
    e == EngineError && (w.pc.Launch? || w.pc.Engine?)
  }

  /** Somewhere in the schedule the engine call raises. */
  predicate EngineFailsIn(cfg: Config, q: QueryId, w: Worker, events: seq<Event>) {
    events != []
    && (EngineFailsIn(cfg, q, w, events[..|events| - 1])
        || EngineFails(Run(cfg, q, w, events[..|events| - 1]), events[|events| - 1]))
  }

  lemma PlaceOk(cfg: Config, q: QueryId, w: Worker)
    requires InLoop(w.pc) || InTail(w.pc)
    requires BlockCount(cfg) > 0
    ensures var after := NextOk(cfg, q, w);
      if after.refreshes == w.refreshes then WillCheck(cfg, after.pc) == WillCheck(cfg, w.pc)
      else after.refreshes > w.refreshes && WillCheck(cfg, w.pc)
  {
    hide LimitAfter, StatementLimits, BlockCount;
  }

  lemma PlaceLibrary(cfg: Config, w: Worker, e: Event)
    requires Smooth(cfg, e) && (InLoop(w.pc) || InTail(w.pc))
    ensures var after := NextLibrary(cfg, w, e);
      if after.refreshes == w.refreshes then !EngineFails(w, e) && WillCheck(cfg, after.pc) == WillCheck(cfg, w.pc)
      else after.refreshes > w.refreshes && EngineFails(w, e)
  {
    hide BlockCount, BlockLimit, Fetched, FetchedAll, Trimmed;
  }

  /** Smooth steps keep the place until they refresh; they refresh from such a place or on an engine error. */
  lemma PlaceStep(cfg: Config, q: QueryId, w: Worker, e: Event)
    requires Smooth(cfg, e) && BlockCount(cfg) > 0 && (InLoop(w.pc) || InTail(w.pc) || w.pc.Return? || w.pc.Done?)
    ensures var after := Next(cfg, q, w, e);
      if after.refreshes == w.refreshes then !EngineFails(w, e) && WillCheck(cfg, after.pc) == WillCheck(cfg, w.pc)
      else after.refreshes > w.refreshes && (WillCheck(cfg, w.pc) || EngineFails(w, e))
  {
    if InLoop(w.pc) || InTail(w.pc) {
      hide NextOk, NextLibrary;
      PlaceOk(cfg, q, w);
      PlaceLibrary(cfg, w, e);
    }
  }

  lemma {:induction false} PlaceRun(cfg: Config, q: QueryId, w: Worker, events: seq<Event>)
    requires Overwrites(w, w.refreshes) && BlockCount(cfg) > 0
    requires forall e :: e in events ==> Smooth(cfg, e)
    ensures var end := Run(cfg, q, w, events);
      if end.refreshes == w.refreshes
      then !EngineFailsIn(cfg, q, w, events) && WillCheck(cfg, end.pc) == WillCheck(cfg, w.pc)
      else end.refreshes > w.refreshes && (WillCheck(cfg, w.pc) || EngineFailsIn(cfg, q, w, events))
  {
    hide Next, Smooth, WillCheck, EngineFails, Undecided;
    if events != [] {
      var n := |events| - 1;
      var before := Run(cfg, q, w, events[..n]);
      PlaceRun(cfg, q, w, events[..n]);
      OverwritesRun(cfg, q, w, events[..n], w.refreshes);
      OverwritesStep(cfg, q, before, events[n], w.refreshes);
      if before.refreshes == w.refreshes {
        PlaceStep(cfg, q, before, events[n]);
      }
    }
  }

  /**
   * Exactly when a stop wins, by the worker's place when it is committed: in a run that goes
   * smoothly from then on, the row ends STOPPED if and only if a block had not been checked for yet
   * or the engine call raises later; otherwise SUCCESS overwrites the stop.
   */
  lemma StopWinsByPlace(cfg: Config, q: QueryId, row: Row, before: seq<Event>, after: seq<Event>)
    requires FreshRow(row) && BlockCount(cfg) > 0
    requires var pc := Run(cfg, q, Initial(q, row), before).pc; InLoop(pc) || InTail(pc)
    requires forall e :: e in after ==> Smooth(cfg, e)
    requires Run(cfg, q, Next(cfg, q, Run(cfg, q, Initial(q, row), before), Stop), after).pc.Done?
    ensures var w := Run(cfg, q, Initial(q, row), before);
      var stopped := Next(cfg, q, w, Stop);
      var end := Run(cfg, q, stopped, after);
      var wins := WillCheck(cfg, w.pc) || EngineFailsIn(cfg, q, stopped, after);
      && (end.session.row.status == Stopped <==> wins)
      && (end.session.row.status == Success <==> !wins)
  {
    var w := Run(cfg, q, Initial(q, row), before);
    var stopped := Next(cfg, q, w, Stop);
    StopWinsIffRefreshed(cfg, q, row, before, after);
    RunUndecided(cfg, q, row, before);
    hide Run;
    assert stopped.pc == w.pc && stopped.refreshes == w.refreshes;
    assert Overwrites(stopped, stopped.refreshes);
    PlaceRun(cfg, q, stopped, after);
    hide *;
    assert WillCheck(cfg, w.pc) == WillCheck(cfg, stopped.pc);
    DoneWillNotCheck(cfg, Run(cfg, q, stopped, after).pc);
  }

  lemma DoneWillNotCheck(cfg: Config, pc: PC)
    requires pc.Done?
    ensures !WillCheck(cfg, pc)
  {
  }

  // ----- Stops in runs that do not go well -----

  /** The worker refreshes the row: at the head of a block, or because the engine call raised. */
  predicate Checks(cfg: Config, w: Worker, e: Event) {
    (e == Ok && w.pc.Top? && w.pc.i < BlockCount(cfg)) || EngineFails(w, e)
  }

  predicate ChecksIn(cfg: Config, q: QueryId, w: Worker, events: seq<Event>) {
    events != []
    && (ChecksIn(cfg, q, w, events[..|events| - 1])
        || Checks(cfg, Run(cfg, q, w, events[..|events| - 1]), events[|events| - 1]))
  }

  predicate SawFailed(s: Session) {
    s.loaded.Some? && s.loaded.value.status == Failed
  }

  /** The outer handler has nothing to write, since it read the row as FAILED before. */
  predicate KnowsFailed(w: Worker) {
    (w.pc.Outer? && SawFailed(w.session)) || (w.pc.OuterCommit? && w.session.changes.status == None)
  }

  /** A failure in the loop comes to a row not FAILED yet. */
  predicate FirstFailure(w: Worker) {
    && (w.pc.Inner? || w.pc.InnerCommit? ==> !SawFailed(w.session) && w.session.row.status != Failed)
    && (w.pc.InnerCommit? ==> w.session.changes.status == Some(Failed) && w.session.loaded.Some?)
  }

  lemma FirstFailureOk(cfg: Config, q: QueryId, w: Worker)
    requires FirstFailure(w) && Undecided(w)
    ensures FirstFailure(NextOk(cfg, q, w))
  {
    hide LimitAfter, StatementLimits, BlockCount;
  }

  lemma FirstFailureLibrary(cfg: Config, w: Worker, e: Event)
    requires FirstFailure(w) && Undecided(w)
    ensures FirstFailure(NextLibrary(cfg, w, e))
  {
    hide BlockLimit, Fetched, FetchedAll, Trimmed;
  }

  lemma FirstFailureStep(cfg: Config, q: QueryId, w: Worker, e: Event)
    requires FirstFailure(w) && Undecided(w)
    ensures FirstFailure(Next(cfg, q, w, e))
  {
    hide NextOk, NextLibrary;
    FirstFailureOk(cfg, q, w);
    FirstFailureLibrary(cfg, w, e);
  }

  lemma {:induction false} RunFirstFailure(cfg: Config, q: QueryId, row: Row, events: seq<Event>)
    requires FreshRow(row)
    ensures FirstFailure(Run(cfg, q, Initial(q, row), events))
  {
    if events != [] {
      var n := |events| - 1;
      RunFirstFailure(cfg, q, row, events[..n]);
      RunUndecided(cfg, q, row, events[..n]);
      FirstFailureStep(cfg, q, Run(cfg, q, Initial(q, row), events[..n]), events[n]);
      hide Next, FirstFailure;
    }
  }

  /** The stop stands but is not seen, or a later commit has written over it. */
  predicate Overlooked(w: Worker) {
    var s := w.session;
    match w.pc
    case Start => false
    case Inner => s.row.status == Failed || !SawFailed(s)
    case Outer => s.row.status == Failed || !SawFailed(s)
    case InnerCommit => s.loaded.Some? &&
      ((s.row.status == Failed && s.changes.status == None) || (s.changes.status == Some(Failed) && !SawFailed(s)))
    case OuterCommit => (s.row.status == Failed && s.changes.status == None) || s.changes.status == Some(Failed)
    case InnerReply => s.row.status == Failed
    case OuterReply => s.row.status == Failed
    case Return => s.row.status == Success && !SawFailed(s)
    case Done(_) => s.row.status == Failed || s.row.status == Success
    case Crashed => true
    case _ => s.row.status == Stopped && Undecided(w)
  }

  predicate SeenAndDone(w: Worker) {
    w.pc.Done? && w.session.row.status == Stopped
  }

  lemma OverlookedOkInLoop(cfg: Config, q: QueryId, w: Worker)
    requires Overlooked(w) && InLoop(w.pc)
    ensures if Checks(cfg, w, Ok) then SeenAndDone(NextOk(cfg, q, w)) else Overlooked(NextOk(cfg, q, w))
  {
    hide LimitAfter, StatementLimits, BlockCount;
  }

  lemma OverlookedOkInTail(cfg: Config, q: QueryId, w: Worker)
    requires Overlooked(w) && InTail(w.pc)
    ensures Overlooked(NextOk(cfg, q, w))
  {
  }

  lemma OverlookedOkAfterTail(cfg: Config, q: QueryId, w: Worker)
    requires Overlooked(w) && !InLoop(w.pc) && !InTail(w.pc)
    ensures Overlooked(NextOk(cfg, q, w))
  {
  }

  lemma OverlookedRaise(w: Worker)
    requires Overlooked(w)
    ensures Overlooked(NextRaise(w))
  {
  }

  lemma OverlookedLibrary(cfg: Config, w: Worker, e: Event)
    requires Overlooked(w) && e != Ok
    ensures if Checks(cfg, w, e) then SeenAndDone(NextLibrary(cfg, w, e)) else Overlooked(NextLibrary(cfg, w, e))
  {
    hide BlockLimit, Fetched, FetchedAll, Trimmed, BlockCount;
  }

  lemma OverlookedReload(w: Worker)
    requires Overlooked(w)
    ensures Overlooked(w.(session := w.session.Load()))
  {
  }

  lemma OverlookedStep(cfg: Config, q: QueryId, w: Worker, e: Event)
    requires Overlooked(w) && e != Stop
    ensures if Checks(cfg, w, e) then SeenAndDone(Next(cfg, q, w, e)) else Overlooked(Next(cfg, q, w, e))
  {
    hide NextOk, NextRaise, NextLibrary, Overlooked;
    if InLoop(w.pc) {
      OverlookedOkInLoop(cfg, q, w);
    } else if InTail(w.pc) {
      OverlookedOkInTail(cfg, q, w);
    } else {
      OverlookedOkAfterTail(cfg, q, w);
    }
    OverlookedRaise(w);
    OverlookedReload(w);
    if e != Ok {
      OverlookedLibrary(cfg, w, e);
    }
  }

  lemma {:induction false} OverlookedRun(cfg: Config, q: QueryId, w: Worker, events: seq<Event>)
    requires Overlooked(w) && Stop !in events
    ensures if ChecksIn(cfg, q, w, events) then SeenAndDone(Run(cfg, q, w, events))
      else Overlooked(Run(cfg, q, w, events))
  {
    hide Next, Overlooked, Checks;
    if events != [] {
      var n := |events| - 1;
      var before := Run(cfg, q, w, events[..n]);
      OverlookedRun(cfg, q, w, events[..n]);
      assert events[n] in events;
      if ChecksIn(cfg, q, w, events[..n]) {
        DoneStays(cfg, q, before, events[n]);
      } else {
        OverlookedStep(cfg, q, before, events[n]);
      }
    }
  }

  lemma DoneStays(cfg: Config, q: QueryId, w: Worker, e: Event)
    requires SeenAndDone(w)
    ensures SeenAndDone(Next(cfg, q, w, e))
  {
  }

  /** A stop that the outer handler will not write over. */
  predicate LeftStanding(w: Worker) {
    && w.session.row.status == Stopped
    && (InOuterHandler(w.pc) || w.pc.Done? || w.pc.Crashed?)
    && (w.pc.Outer? ==> SawFailed(w.session))
    && (w.pc.OuterCommit? || w.pc.OuterReply? ==> w.session.changes.status == None)
  }

  lemma {:induction false} LeftStandingRun(cfg: Config, q: QueryId, w: Worker, events: seq<Event>)
    requires LeftStanding(w)
    ensures LeftStanding(Run(cfg, q, w, events))
  {
    if events != [] {
      var n := |events| - 1;
      LeftStandingRun(cfg, q, w, events[..n]);
      LeftStandingStep(cfg, q, Run(cfg, q, w, events[..n]), events[n]);
      hide Next, LeftStanding;
    }
  }

  lemma LeftStandingStep(cfg: Config, q: QueryId, w: Worker, e: Event)
    requires LeftStanding(w)
    ensures LeftStanding(Next(cfg, q, w, e))
  {
    hide LimitAfter, StatementLimits, BlockCount, BlockLimit, Fetched, FetchedAll, Trimmed;
  }

  /**
   * Exactly when the last stop of any run survives it, whatever else goes wrong: if and only if the
   * worker refreshes the row later, or its outer handler had read the row as FAILED before the stop.
   */
  lemma StopSurvivesIff(cfg: Config, q: QueryId, row: Row, before: seq<Event>, after: seq<Event>)
    requires FreshRow(row) && Stop !in after
    requires var pc := Run(cfg, q, Initial(q, row), before).pc;
      InLoop(pc) || InTail(pc) || pc.Inner? || pc.InnerCommit? || pc.Outer? || pc.OuterCommit?
    requires Run(cfg, q, Next(cfg, q, Run(cfg, q, Initial(q, row), before), Stop), after).pc.Done?
    ensures var w := Run(cfg, q, Initial(q, row), before);
      var stopped := Next(cfg, q, w, Stop);
      Run(cfg, q, stopped, after).session.row.status == Stopped <==>
        ChecksIn(cfg, q, stopped, after) || KnowsFailed(w)
  {
    var w := Run(cfg, q, Initial(q, row), before);
    RunUndecided(cfg, q, row, before);
    RunFirstFailure(cfg, q, row, before);
    RunFailureSeen(cfg, q, row, before);
    hide Run, Next, Undecided, FirstFailure, FailureSeen, KnowsFailed;
    var stopped := Next(cfg, q, w, Stop);
    JustStopped(cfg, q, w);
    if KnowsFailed(w) {
      LeftStandingRun(cfg, q, stopped, after);
    } else {
      OverlookedRun(cfg, q, stopped, after);
    }
  }

  lemma JustStopped(cfg: Config, q: QueryId, w: Worker)
    requires Undecided(w) && FirstFailure(w) && FailureSeen(w)
    requires InLoop(w.pc) || InTail(w.pc) || w.pc.Inner? || w.pc.InnerCommit? || w.pc.Outer? || w.pc.OuterCommit?
    ensures if KnowsFailed(w) then LeftStanding(Next(cfg, q, w, Stop)) else Overlooked(Next(cfg, q, w, Stop))
  {
  }

  // ----- A stop before the run -----

  /** Before its first step the worker has changed nothing, and what it has read it keeps. */
  predicate StillAtStart(w: Worker, late: Worker) {
    && w.pc.Start? && w.session.changes == CLEAN && late.session.changes == CLEAN
    && (w.session.loaded.Some? ==> late.session.loaded == w.session.loaded)
    && (late.session.row.status == w.session.row.status || late.session.row.status == Stopped)
    && (w.session.loaded.None? && late.session.loaded.Some? ==>
          late.session.loaded.value.status == w.session.row.status || late.session.loaded.value.status == Stopped)
  }

  lemma StartStep(cfg: Config, q: QueryId, w: Worker, e: Event)
    requires Next(cfg, q, w, e).pc.Start?
    ensures w.pc.Start?
    ensures Next(cfg, q, w, e).session in {w.session, w.session.Load(), w.session.StoppedElsewhere()}
  {
  }

  lemma {:induction false} StartedThere(cfg: Config, q: QueryId, w: Worker, events: seq<Event>)
    requires Run(cfg, q, w, events).pc.Start?
    ensures w.pc.Start?
  {
    if events != [] {
      var n := |events| - 1;
      StartStep(cfg, q, Run(cfg, q, w, events[..n]), events[n]);
      StartedThere(cfg, q, w, events[..n]);
    }
  }

  lemma {:induction false} StartRun(cfg: Config, q: QueryId, w: Worker, events: seq<Event>)
    requires Run(cfg, q, w, events).pc.Start? && w.session.changes == CLEAN
    ensures StillAtStart(w, Run(cfg, q, w, events))
  {
    if events != [] {
      var n := |events| - 1;
      StartStep(cfg, q, Run(cfg, q, w, events[..n]), events[n]);
      StartRun(cfg, q, w, events[..n]);
      hide Next;
    }
  }

  /**
   * A stop before the RUNNING commit survives it exactly when the worker had already read the row
   * as RUNNING, so that it has no change of status to write; every other such stop is overwritten.
   */
  lemma StopBeforeRunningIsLost(cfg: Config, q: QueryId, row: Row, before: seq<Event>, after: seq<Event>)
    requires Run(cfg, q, Next(cfg, q, Run(cfg, q, Initial(q, row), before), Stop), after).pc.Start?
    ensures var w := Run(cfg, q, Initial(q, row), before);
      var running := Next(cfg, q, Run(cfg, q, Next(cfg, q, w, Stop), after), Ok);
      && running.pc.Prepare?
      && running.session.row.status
           == (if w.session.loaded.Some? && w.session.loaded.value.status == Running then Stopped else Running)
      && (row.status != Running ==> running.session.row.status == Running)
  {
    var w := Run(cfg, q, Initial(q, row), before);
    StartedThere(cfg, q, Next(cfg, q, w, Stop), after);
    StartRun(cfg, q, Initial(q, row), before);
    StartRun(cfg, q, Next(cfg, q, w, Stop), after);
    hide Run;
    var late := Run(cfg, q, Next(cfg, q, w, Stop), after);
    assert late.session.row.status == Stopped;
  }

  // ----- The returned status -----

  predicate FailedOrStopped(s: Status) {
    s == Failed || s == Stopped
  }

  predicate SuccessOrStopped(s: Status) {
    s == Success || s == Stopped
  }

  /** What the caller is told of the outcome, against the committed status. */
  predicate Told(result: Option<Payload>, committed: Status) {
    if result.None? then SuccessOrStopped(committed)
    else
      match result.value.status
      case Some(Stopped) => committed == Stopped
      case Some(Failed) => FailedOrStopped(committed)
      case Some(Success) => SuccessOrStopped(committed)
      case _ => false
  }

  /** Once an error handler has committed, the row says FAILED, or STOPPED by a later stop, and so it reads. */
  predicate FailureSeen(w: Worker) {
    var s := w.session;
    && (s.loaded.Some? && s.loaded.value.status == Failed ==> FailedOrStopped(s.row.status))
    && (HandlerCommits(w.pc) ==>
          s.changes.status == Some(Failed) || (s.changes.status == None && FailedOrStopped(s.row.status)))
    && (HandlerReplies(w.pc) ==>
          && FailedOrStopped(s.row.status) && s.changes.status == None
          && (s.loaded.Some? ==> FailedOrStopped(s.loaded.value.status))
          && (s.View().status == Stopped ==> s.row.status == Stopped))
  }

  lemma FailureSeenOkInLoop(cfg: Config, q: QueryId, w: Worker)
    requires FailureSeen(w) && (w.pc.Start? || InLoop(w.pc))
    ensures FailureSeen(NextOk(cfg, q, w))
  {
    hide LimitAfter, StatementLimits, BlockCount;
  }

  lemma FailureSeenOkAfterLoop(cfg: Config, q: QueryId, w: Worker)
    requires FailureSeen(w) && !w.pc.Start? && !InLoop(w.pc)
    ensures FailureSeen(NextOk(cfg, q, w))
  {
  }

  lemma FailureSeenLibrary(cfg: Config, w: Worker, e: Event)
    requires FailureSeen(w)
    ensures FailureSeen(NextLibrary(cfg, w, e))
  {
    hide BlockLimit, Fetched, FetchedAll, Trimmed;
  }

  lemma FailureSeenStep(cfg: Config, q: QueryId, w: Worker, e: Event)
    requires FailureSeen(w)
    ensures FailureSeen(Next(cfg, q, w, e))
  {
    hide NextOk, NextLibrary;
    if w.pc.Start? || InLoop(w.pc) {
      FailureSeenOkInLoop(cfg, q, w);
    } else {
      FailureSeenOkAfterLoop(cfg, q, w);
    }
    FailureSeenLibrary(cfg, w, e);
  }

  lemma {:induction false} RunFailureSeen(cfg: Config, q: QueryId, row: Row, events: seq<Event>)
    ensures FailureSeen(Run(cfg, q, Initial(q, row), events))
  {
    if events != [] {
      var n := |events| - 1;
      RunFailureSeen(cfg, q, row, events[..n]);
      FailureSeenStep(cfg, q, Run(cfg, q, Initial(q, row), events[..n]), events[n]);
      hide Next, FailureSeen;
    }
  }

  predicate StatusTold(w: Worker) {
    var s := w.session;
    && FailureSeen(w)
    && (w.pc.Done? ==> Told(w.pc.result, s.row.status))
    && (w.pc.Return? ==> SuccessOrStopped(s.row.status))
    && (w.pc.Store? || w.pc.Final? || w.pc.Return? ==> w.payload.status == Some(Success))
  }

  lemma StatusToldOkInLoop(cfg: Config, q: QueryId, w: Worker)
    requires StatusTold(w) && Undecided(w) && (w.pc.Start? || InLoop(w.pc))
    ensures StatusTold(NextOk(cfg, q, w))
  {
    hide LimitAfter, StatementLimits, BlockCount;
  }

  lemma StatusToldOkAfterLoop(cfg: Config, q: QueryId, w: Worker)
    requires StatusTold(w) && Undecided(w) && !w.pc.Start? && !InLoop(w.pc)
    ensures StatusTold(NextOk(cfg, q, w))
  {
  }

  lemma StatusToldLibrary(cfg: Config, w: Worker, e: Event)
    requires StatusTold(w) && Undecided(w)
    ensures StatusTold(NextLibrary(cfg, w, e))
  {
    hide BlockLimit, Fetched, FetchedAll, Trimmed;
  }

  lemma StatusToldStep(cfg: Config, q: QueryId, w: Worker, e: Event)
    requires StatusTold(w) && Undecided(w)
    ensures StatusTold(Next(cfg, q, w, e))
  {
    hide NextOk, NextLibrary, Undecided;
    if w.pc.Start? || InLoop(w.pc) {
      StatusToldOkInLoop(cfg, q, w);
    } else {
      StatusToldOkAfterLoop(cfg, q, w);
    }
    StatusToldLibrary(cfg, w, e);
  }

  /**
   * The status a run returns is the one it committed: the row can differ from it only by a stop
   * that came after the commit, and a returned STOPPED is always in the row.
   */
  lemma {:induction false} ReturnedStatusIsCommitted(cfg: Config, q: QueryId, row: Row, events: seq<Event>)
    requires FreshRow(row)
    ensures StatusTold(Run(cfg, q, Initial(q, row), events))
    ensures var w := Run(cfg, q, Initial(q, row), events);
      w.pc.Done? ==> Told(w.pc.result, w.session.row.status)
  {
    if events != [] {
      var n := |events| - 1;
      ReturnedStatusIsCommitted(cfg, q, row, events[..n]);
      RunUndecided(cfg, q, row, events[..n]);
      StatusToldStep(cfg, q, Run(cfg, q, Initial(q, row), events[..n]), events[n]);
      hide Next, StatusTold;
    }
  }

  // ----- Commits -----

  /** A commit is the worker's next step. */
  predicate Commits(pc: PC) {
    pc.Start? || pc.Announce? || pc.Launch? || pc.Final? || HandlerCommits(pc)
  }

  /** Nothing is pending and nothing is loaded, so the next reads are of the row. */
  predicate JustCommitted(s: Session) {
    s.changes == CLEAN && s.loaded.None? && s.View() == s.row
  }

  /** Nothing has been changed since the last commit. */
  predicate NothingPending(w: Worker) {
    w.pc.Prepare? || w.pc.Launch? || w.pc.Engine? || w.pc.Return? || HandlerReplies(w.pc) ==>
      w.session.changes == CLEAN
  }

  lemma NothingPendingStep(cfg: Config, q: QueryId, w: Worker, e: Event)
    requires NothingPending(w)
    ensures NothingPending(Next(cfg, q, w, e))
  {
    hide LimitAfter, StatementLimits, BlockCount, BlockLimit, Fetched, FetchedAll, Trimmed;
  }

  /**
   * For every schedule: while the engine runs, others see in the row all the worker has set; and each
   * commit also expires what the worker has read, so that its next reads are of the committed row.
   */
  lemma {:induction false} CommittedBeforeEngine(cfg: Config, q: QueryId, row: Row, events: seq<Event>)
    ensures var w := Run(cfg, q, Initial(q, row), events);
      && NothingPending(w)
      && (Commits(w.pc) ==> JustCommitted(Next(cfg, q, w, Ok).session))
  {
    if events != [] {
      var n := |events| - 1;
      CommittedBeforeEngine(cfg, q, row, events[..n]);
      NothingPendingStep(cfg, q, Run(cfg, q, Initial(q, row), events[..n]), events[n]);
      hide Next, NothingPending;
    }
    CommitStep(cfg, q, Run(cfg, q, Initial(q, row), events));
  }

  lemma CommitStep(cfg: Config, q: QueryId, w: Worker)
    ensures Commits(w.pc) ==> JustCommitted(Next(cfg, q, w, Ok).session)
  {
  }

  // ----- Runs that succeed exist -----

  lemma {:induction false} RunAppend(cfg: Config, q: QueryId, w: Worker, a: seq<Event>, b: seq<Event>)
    ensures Run(cfg, q, w, a + b) == Run(cfg, q, Run(cfg, q, w, a), b)
  {
    hide Next;
    if b == [] {
      assert a + b == a;
    } else {
      var n := |b| - 1;
      RunAppend(cfg, q, w, a, b[..n]);
      assert (a + b)[..|a + b| - 1] == a + b[..n];
    }
  }

  lemma OneEvent(cfg: Config, q: QueryId, w: Worker, e: Event)
    ensures Run(cfg, q, w, [e]) == Next(cfg, q, w, e)
  {
    hide Next;
    assert [e][..0] == [];
    assert Run(cfg, q, w, []) == w;
  }

  /** The event that carries the worker on when everything goes well. */
  function GoodEvent(cfg: Config, pc: PC): Event {
    if pc.Engine? then Rows([])
    else if pc.Store? && cfg.storeResults && cfg.resultsBackend then Stored("key")
    else Ok
  }

  predicate OnCourse(cfg: Config, w: Worker) {
    && BlockCount(cfg) > 0 && Undecided(w) && w.session.row.status != Stopped
    && match w.pc
       case Start => w.started == 0
       case Prepare => w.started == 0
       case Connect => w.started == 0
       case Top(i) => i <= BlockCount(cfg) && w.started == i
       case Announce(i) => i < BlockCount(cfg) && w.started == i
       case Launch(i) => i < BlockCount(cfg) && w.started == i
       case Engine(i) => i < BlockCount(cfg) && w.started == i + 1
       case Build(i) => i < BlockCount(cfg) && w.started == i + 1
       case Inner => false
       case InnerCommit => false
       case InnerReply => false
       case Outer => false
       case OuterCommit => false
       case OuterReply => false
       case Crashed => false
       case Return => w.started == BlockCount(cfg) && w.session.row.status == Success
       case Done(_) => w.started == BlockCount(cfg) && w.session.row.status == Success
       case _ => w.started == BlockCount(cfg)
  }

  lemma OnCourseStep(cfg: Config, q: QueryId, w: Worker)
    requires OnCourse(cfg, w) && !w.pc.Done?
    ensures OnCourse(cfg, Next(cfg, q, w, GoodEvent(cfg, w.pc))) && Next(cfg, q, w, GoodEvent(cfg, w.pc)).pc != w.pc
  {
    hide LimitAfter, StatementLimits, BlockCount, BlockLimit, Fetched, FetchedAll, Trimmed;
  }

  /** Left alone, the worker runs every block and ends SUCCESS. */
  lemma {:induction false} LeftAloneSucceeds(cfg: Config, q: QueryId, w: Worker) returns (events: seq<Event>)
    requires OnCourse(cfg, w)
    ensures var end := Run(cfg, q, w, events);
      && end.pc.Done? && end.session.row.status == Success
      && end.started == if cfg.asOneBlock then 1 else |cfg.statements|
    ensures forall e :: e in events ==> Smooth(cfg, e)
    decreases Remaining(cfg, w.pc)
  {
    hide Next, Remaining;
    if w.pc.Done? {
      events := [];
    } else {
      var e := GoodEvent(cfg, w.pc);
      OnCourseStep(cfg, q, w);
      StepDescends(cfg, q, w, e);
      var rest := LeftAloneSucceeds(cfg, q, Next(cfg, q, w, e));
      events := [e] + rest;
      OneEvent(cfg, q, w, e);
      RunAppend(cfg, q, w, [e], rest);
    }
  }
}
