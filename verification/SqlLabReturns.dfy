/** What the caller of the SQL Lab worker gets back, over all schedules. */
module SqlLabReturns {
  import opened Wrappers
  import opened QueryRow
  import opened SqlLab
  import opened SqlLabSafety
  import opened SqlLabLimits

  predicate Succeeded(result: Option<Payload>) {
    result.None? || result.value.status == Some(Success)
  }

  /** Whose result set is in `data`: the number of blocks taken so far, 0 where that no longer matters. */
  function Taken(cfg: Config, pc: PC): nat {
    match pc
    case Top(i) => i
    case Announce(i) => i
    case Launch(i) => i
    case Engine(i) => i
    case Build(i) => i + 1
    case Serialize => BlockCount(cfg)
    case Store => BlockCount(cfg)
    case Final => BlockCount(cfg)
    case Return => BlockCount(cfg)
    case Done(result) => if Succeeded(result) then BlockCount(cfg) else 0
    case _ => 0
  }

  predicate WithinBlocks(cfg: Config, pc: PC) {
    match pc
    case Top(i) => i <= BlockCount(cfg)
    case Announce(i) => i < BlockCount(cfg)
    case Launch(i) => i < BlockCount(cfg)
    case Engine(i) => i < BlockCount(cfg)
    case Build(i) => i < BlockCount(cfg)
    case Serialize => BlockCount(cfg) > 0
    case Store => BlockCount(cfg) > 0
    case Final => BlockCount(cfg) > 0
    case Return => BlockCount(cfg) > 0
    case Done(result) => Succeeded(result) ==> BlockCount(cfg) > 0
    case _ => true
  }

  /** The payload is filled after the last block, and returned as it is. */
  predicate PayloadSound(cfg: Config, q: QueryId, w: Worker) {
    && (w.pc.Start? || InLoop(w.pc) || w.pc.Serialize? || w.pc.Inner? || w.pc.InnerCommit? || w.pc.InnerReply? ==>
          w.payload == Payload(Some(q), None, [], None))
    && (w.pc.Store? || w.pc.Final? || w.pc.Return? ==>
          w.payload.queryId == Some(q) && w.payload.status == Some(Success) && w.payload.data == w.data)
    && (w.pc.Done? ==>
          if w.pc.result.None? then !cfg.returnResults
          else if w.pc.result.value.status == Some(Success) then
            cfg.returnResults && w.pc.result.value.queryId == Some(q) && w.pc.result.value.data == w.data
          else w.pc.result.value.data == [] && w.pc.result.value.resultsKey == None)
  }

  predicate ReturnSound(cfg: Config, q: QueryId, w: Worker) {
    WithinBlocks(cfg, w.pc) && PayloadSound(cfg, q, w)
  }

  /** Unless it takes a result set, a step keeps the one there is, or the count starts over. */
  predicate KeepsRows(cfg: Config, w: Worker, after: Worker) {
    Taken(cfg, after.pc) > 0 ==>
      Taken(cfg, after.pc) == Taken(cfg, w.pc) && after.data == w.data && after.full == w.full
  }

  lemma ReturnOkInLoop(cfg: Config, q: QueryId, w: Worker)
    requires ReturnSound(cfg, q, w) && (w.pc.Start? || InLoop(w.pc))
    ensures ReturnSound(cfg, q, NextOk(cfg, q, w)) && KeepsRows(cfg, w, NextOk(cfg, q, w))
  {
    hide LimitAfter, StatementLimits, BlockCount;
  }

  lemma ReturnOkAfterLoop(cfg: Config, q: QueryId, w: Worker)
    requires ReturnSound(cfg, q, w) && FailureSeen(w) && !w.pc.Start? && !InLoop(w.pc)
    ensures ReturnSound(cfg, q, NextOk(cfg, q, w)) && KeepsRows(cfg, w, NextOk(cfg, q, w))
  {
    hide BlockCount;
  }

  lemma ReturnRaise(cfg: Config, q: QueryId, w: Worker)
    requires ReturnSound(cfg, q, w)
    ensures ReturnSound(cfg, q, NextRaise(w)) && KeepsRows(cfg, w, NextRaise(w))
  {
    hide BlockCount;
  }

  lemma ReturnLibrary(cfg: Config, q: QueryId, w: Worker, e: Event)
    requires ReturnSound(cfg, q, w)
    ensures ReturnSound(cfg, q, NextLibrary(cfg, w, e))
    ensures (w.pc.Engine? && e.Rows?) || KeepsRows(cfg, w, NextLibrary(cfg, w, e))
  {
    hide BlockCount, BlockLimit, Fetched, FetchedAll, Trimmed;
  }

  lemma ReturnStep(cfg: Config, q: QueryId, w: Worker, e: Event)
    requires ReturnSound(cfg, q, w) && FailureSeen(w)
    ensures ReturnSound(cfg, q, Next(cfg, q, w, e))
    ensures (w.pc.Engine? && e.Rows?) || KeepsRows(cfg, w, Next(cfg, q, w, e))
  {
    hide NextOk, NextRaise, NextLibrary, FailureSeen;
    if w.pc.Start? || InLoop(w.pc) {
      ReturnOkInLoop(cfg, q, w);
    } else {
      ReturnOkAfterLoop(cfg, q, w);
    }
    ReturnRaise(cfg, q, w);
    ReturnLibrary(cfg, q, w, e);
  }

  /** Event k brought the full result of block i, of which `rows` were kept. */
  ghost predicate Brought(cfg: Config, q: QueryId, row: Row, events: seq<Event>, k: nat, i: nat,
                          full: seq<Record>, rows: seq<Record>) {
    && k < |events| && events[k] == Rows(full)
    && Run(cfg, q, Initial(q, row), events[..k]).pc == Engine(i)
    && rows == Next(cfg, q, Run(cfg, q, Initial(q, row), events[..k]), events[k]).data
  }

  lemma BroughtEarlier(cfg: Config, q: QueryId, row: Row, events: seq<Event>, n: nat, k: nat, i: nat,
                       full: seq<Record>, rows: seq<Record>)
    requires n <= |events| && Brought(cfg, q, row, events[..n], k, i, full, rows)
    ensures Brought(cfg, q, row, events, k, i, full, rows)
  {
    hide Next, Run;
    assert events[..n][..k] == events[..k];
  }

  lemma TakesRows(cfg: Config, q: QueryId, w: Worker, e: Event)
    requires w.pc.Engine? && e.Rows?
    ensures Next(cfg, q, w, e).full == e.full && Next(cfg, q, w, e).pc == Build(w.pc.i)
  {
    hide BlockLimit, Fetched, FetchedAll, Trimmed;
  }

  lemma {:induction false} RowsAreBrought(cfg: Config, q: QueryId, row: Row, events: seq<Event>) returns (k: nat)
    ensures var w := Run(cfg, q, Initial(q, row), events);
      && ReturnSound(cfg, q, w)
      && (Taken(cfg, w.pc) > 0 ==> Brought(cfg, q, row, events, k, Taken(cfg, w.pc) - 1, w.full, w.data))
  {
    k := 0;
    hide Next, ReturnSound, Brought, Taken;
    if events == [] {
      NothingTaken(cfg, q, row);
    } else {
      var n := |events| - 1;
      var before := Run(cfg, q, Initial(q, row), events[..n]);
      k := RowsAreBrought(cfg, q, row, events[..n]);
      RunFailureSeen(cfg, q, row, events[..n]);
      ReturnStep(cfg, q, before, events[n]);
      if before.pc.Engine? && events[n].Rows? {
        k := n;
        JustBrought(cfg, q, row, events);
      } else if Taken(cfg, Next(cfg, q, before, events[n]).pc) > 0 {
        BroughtEarlier(cfg, q, row, events, n, k, Taken(cfg, before.pc) - 1, before.full, before.data);
      }
    }
  }

  lemma NothingTaken(cfg: Config, q: QueryId, row: Row)
    ensures var w := Run(cfg, q, Initial(q, row), []); ReturnSound(cfg, q, w) && Taken(cfg, w.pc) == 0
  {
  }

  lemma JustBrought(cfg: Config, q: QueryId, row: Row, events: seq<Event>)
    requires events != [] && events[|events| - 1].Rows?
    requires Run(cfg, q, Initial(q, row), events[..|events| - 1]).pc.Engine?
    ensures var w := Run(cfg, q, Initial(q, row), events);
      Taken(cfg, w.pc) > 0 && Brought(cfg, q, row, events, |events| - 1, Taken(cfg, w.pc) - 1, w.full, w.data)
  {
    var n := |events| - 1;
    TakesRows(cfg, q, Run(cfg, q, Initial(q, row), events[..n]), events[n]);
    hide Next;
  }

  // ----- The result -----

  /** `rows` are what was kept of the full result of the last block. */
  ghost predicate LastBlockGave(cfg: Config, q: QueryId, row: Row, events: seq<Event>, rows: seq<Record>) {
    exists k: nat, i: nat, full :: i + 1 == BlockCount(cfg) && Brought(cfg, q, row, events, k, i, full, rows)
  }

  /** The first `l` rows of the full result of the last block, all of them if there are no more. */
  ghost predicate LastBlockStartsWith(cfg: Config, q: QueryId, row: Row, events: seq<Event>, l: nat,
                                      rows: seq<Record>) {
    exists k: nat, i: nat, full ::
      && i + 1 == BlockCount(cfg) && Brought(cfg, q, row, events, k, i, full, rows)
      && rows <= full && |rows| == (if |full| < l then |full| else l)
  }

  /**
   * What a returned run has told its caller. A run that succeeds returns a payload if and only if it is
   * asked to; that payload names the query and holds the rows kept of the last block. A run that
   * fails or is stopped returns no rows and no key.
   */
  ghost predicate Delivered(cfg: Config, q: QueryId, row: Row, events: seq<Event>, result: Option<Payload>) {
    && (Succeeded(result) ==> (result.Some? <==> cfg.returnResults))
    && (result.Some? && result.value.status == Some(Success) ==>
          result.value.queryId == Some(q) && LastBlockGave(cfg, q, row, events, result.value.data))
    && (result.Some? && result.value.status != Some(Success) ==>
          result.value.data == [] && result.value.resultsKey == None)
    && (result.Some? && result.value.status == Some(Success) && LastIsLimited(cfg) && LimitKept(cfg, row.limit) ==>
          && Clamped(cfg, row.limit).Some?
          && LastBlockStartsWith(cfg, q, row, events, Clamped(cfg, row.limit).value, result.value.data))
  }

  /** For every schedule: a run that returns has delivered the rows of its last block. */
  lemma RunDelivers(cfg: Config, q: QueryId, row: Row, events: seq<Event>)
    requires Run(cfg, q, Initial(q, row), events).pc.Done?
    ensures Delivered(cfg, q, row, events, Run(cfg, q, Initial(q, row), events).pc.result)
  {
    hide Next, Run, LastIsLimited, LimitKept, Clamped;
    var w := Run(cfg, q, Initial(q, row), events);
    var k := RowsAreBrought(cfg, q, row, events);
    if w.pc.result.Some? && w.pc.result.value.status == Some(Success) {
      var last := BlockCount(cfg) - 1;
      assert Brought(cfg, q, row, events, k, last, w.full, w.data);
      if LastIsLimited(cfg) && LimitKept(cfg, row.limit) {
        FirstBrought(cfg, q, row, events, k, w.full, w.data);
      }
    }
  }

  lemma FirstBrought(cfg: Config, q: QueryId, row: Row, events: seq<Event>, k: nat,
                     full: seq<Record>, rows: seq<Record>)
    requires LastIsLimited(cfg) && LimitKept(cfg, row.limit) && BlockCount(cfg) > 0
    requires Brought(cfg, q, row, events, k, BlockCount(cfg) - 1, full, rows)
    ensures Clamped(cfg, row.limit).Some?
    ensures LastBlockStartsWith(cfg, q, row, events, Clamped(cfg, row.limit).value, rows)
  {
    hide Next, Run, Clamped, LimitKept;
    ClampedMeans(cfg, row.limit);
    RowsExactIffLimitKept(cfg, q, row, events[..k]);
    assert rows == First(Clamped(cfg, row.limit).value, full);
  }
}
