/** The results backend: what a committed results key names, over all queries and schedules. */
module SqlLabResults {
  import opened Wrappers
  import opened QueryRow
  import opened SqlLab
  import opened SqlLabSafety

  predicate BeforeStore(pc: PC) {
    pc.Start? || InLoop(pc) || pc.Inner? || pc.InnerCommit? || pc.InnerReply? || pc.Serialize? || pc.Store?
  }

  /** The entry a run stores: the success payload of this query, with its data and its own key. */
  predicate Holds(q: QueryId, data: seq<Record>, key: Option<Key>, backend: map<Key, Payload>) {
    key.Some? ==>
      key.value in backend && backend[key.value] == Payload(Some(q), Some(Success), data, key)
  }

  predicate KeysHeld(q: QueryId, w: Worker, backend: map<Key, Payload>) {
    var s := w.session;
    && Holds(q, w.data, s.row.resultsKey, backend)
    && (s.loaded.Some? ==> Holds(q, w.data, s.loaded.value.resultsKey, backend))
    && (s.changes.resultsKey.Some? ==> Holds(q, w.data, s.changes.resultsKey.value, backend))
  }

  predicate NoKey(s: Session) {
    && s.row.resultsKey == None
    && (s.loaded.Some? ==> s.loaded.value.resultsKey == None)
    && s.changes.resultsKey.GetOr(None) == None
  }

  predicate KeySound(q: QueryId, w: Worker, backend: map<Key, Payload>) {
    && KeysHeld(q, w, backend)
    && (BeforeStore(w.pc) ==> NoKey(w.session))
    && (w.pc.Store? ==> w.payload == Payload(Some(q), Some(Success), w.data, None))
  }

  function BackendAfter(w: Worker, after: Worker, e: Event, backend: map<Key, Payload>): map<Key, Payload> {
    if e.Stored? && w.pc.Store? && after.pc.Final? then backend[e.key := after.payload] else backend
  }

  lemma KeySoundOkInLoop(cfg: Config, q: QueryId, w: Worker, backend: map<Key, Payload>)
    requires KeySound(q, w, backend) && (w.pc.Start? || InLoop(w.pc))
    ensures KeySound(q, NextOk(cfg, q, w), backend)
  {
    hide LimitAfter, StatementLimits, BlockCount, Holds;
  }

  lemma KeySoundOkAfterLoop(cfg: Config, q: QueryId, w: Worker, backend: map<Key, Payload>)
    requires KeySound(q, w, backend) && !w.pc.Start? && !InLoop(w.pc)
    ensures KeySound(q, NextOk(cfg, q, w), backend)
  {
    hide Holds;
  }

  lemma KeySoundOk(cfg: Config, q: QueryId, w: Worker, backend: map<Key, Payload>)
    requires KeySound(q, w, backend)
    ensures KeySound(q, NextOk(cfg, q, w), backend)
  {
    hide NextOk, KeySound;
    if w.pc.Start? || InLoop(w.pc) {
      KeySoundOkInLoop(cfg, q, w, backend);
    } else {
      KeySoundOkAfterLoop(cfg, q, w, backend);
    }
  }

  lemma KeySoundLibrary(cfg: Config, q: QueryId, w: Worker, e: Event, backend: map<Key, Payload>)
    requires KeySound(q, w, backend) && !e.Stored?
    ensures KeySound(q, NextLibrary(cfg, w, e), backend)
  {
    hide BlockLimit, Fetched, FetchedAll, Trimmed;
  }

  lemma KeySoundStored(cfg: Config, q: QueryId, w: Worker, e: Event, backend: map<Key, Payload>)
    requires KeySound(q, w, backend) && e.Stored? && e.key !in backend
    ensures KeySound(q, NextLibrary(cfg, w, e), BackendAfter(w, NextLibrary(cfg, w, e), e, backend))
  {
  }

  lemma KeySoundStep(cfg: Config, q: QueryId, w: Worker, e: Event, backend: map<Key, Payload>)
    requires KeySound(q, w, backend) && !Reuses(e, backend.Keys)
    ensures KeySound(q, Next(cfg, q, w, e), BackendAfter(w, Next(cfg, q, w, e), e, backend))
  {
    hide NextOk, NextLibrary;
    if e.Stored? {
      KeySoundStored(cfg, q, w, e, backend);
    } else {
      KeySoundOk(cfg, q, w, backend);
      KeySoundLibrary(cfg, q, w, e, backend);
    }
  }

  /** A fresh entry disturbs no other query. */
  lemma KeySoundGrows(q: QueryId, w: Worker, backend: map<Key, Payload>, key: Key, payload: Payload)
    requires KeySound(q, w, backend) && key !in backend
    ensures KeySound(q, w, backend[key := payload])
  {
  }

  // ----- A run that stores and does not return its results -----

  predicate MustStore(cfg: Config) {
    cfg.storeResults && cfg.resultsBackend && !cfg.returnResults
  }

  predicate SuccessHasKey(w: Worker) {
    && (w.session.row.status == Success ==> w.session.row.resultsKey.Some?)
    && (w.pc.Final? ==> w.session.changes.resultsKey.Some? && w.session.changes.resultsKey.value.Some?)
    && (w.session.changes.status != Some(Success))
    && (w.session.row.status == Success ==> w.session.changes.resultsKey == None)
    && (w.session.row.status == Success ==> !BeforeStore(w.pc) && !w.pc.Final?)
    && (BeforeStore(w.pc) ==> NoKey(w.session))
  }

  lemma SuccessHasKeyOkInLoop(cfg: Config, q: QueryId, w: Worker)
    requires SuccessHasKey(w) && (w.pc.Start? || InLoop(w.pc))
    ensures SuccessHasKey(NextOk(cfg, q, w))
  {
    hide LimitAfter, StatementLimits, BlockCount;
  }

  lemma SuccessHasKeyOkAfterLoop(cfg: Config, q: QueryId, w: Worker)
    requires SuccessHasKey(w) && MustStore(cfg) && !w.pc.Start? && !InLoop(w.pc)
    ensures SuccessHasKey(NextOk(cfg, q, w))
  {
  }

  lemma SuccessHasKeyLibrary(cfg: Config, w: Worker, e: Event)
    requires SuccessHasKey(w) && MustStore(cfg)
    ensures SuccessHasKey(NextLibrary(cfg, w, e))
  {
    hide BlockLimit, Fetched, FetchedAll, Trimmed;
  }

  lemma SuccessHasKeyStep(cfg: Config, q: QueryId, w: Worker, e: Event)
    requires SuccessHasKey(w) && MustStore(cfg)
    ensures SuccessHasKey(Next(cfg, q, w, e))
  {
    hide NextOk, NextLibrary;
    if w.pc.Start? || InLoop(w.pc) {
      SuccessHasKeyOkInLoop(cfg, q, w);
    } else {
      SuccessHasKeyOkAfterLoop(cfg, q, w);
    }
    SuccessHasKeyLibrary(cfg, w, e);
  }

  /** An async run that ends SUCCESS has committed a results key. */
  lemma {:induction false} AsyncSuccessHasKey(cfg: Config, q: QueryId, row: Row, events: seq<Event>)
    requires FreshRow(row) && MustStore(cfg)
    ensures SuccessHasKey(Run(cfg, q, Initial(q, row), events))
    ensures var w := Run(cfg, q, Initial(q, row), events);
      w.session.row.status == Success ==> w.session.row.resultsKey.Some?
  {
    if events != [] {
      var n := |events| - 1;
      AsyncSuccessHasKey(cfg, q, row, events[..n]);
      SuccessHasKeyStep(cfg, q, Run(cfg, q, Initial(q, row), events[..n]), events[n]);
      hide Next;
    }
  }

  // ----- The returned payload -----

  predicate Succeeding(w: Worker) {
    w.pc.Final? || w.pc.Return?
    || (w.pc.Done? && w.pc.result.Some? && w.pc.result.value.status == Some(Success))
  }

  function ResultPayload(w: Worker): Payload {
    if w.pc.Done? && w.pc.result.Some? then w.pc.result.value else w.payload
  }

  /** The payload carries the drawn key either way; the row has it only if the write succeeded. */
  predicate PayloadKeySound(w: Worker, backend: map<Key, Payload>, used: set<Key>) {
    && w.payload.status != Some(Failed)
    && (!Succeeding(w) && !w.pc.Store? && !InOuterHandler(w.pc) && !w.pc.Crashed? && !w.pc.Done? ==>
        w.payload.status == None)
    && (Succeeding(w) ==>
      var key := ResultPayload(w).resultsKey;
      && key.Some? && key.value in used
      && w.session.View().resultsKey == (if key.value in backend then key else None)
      && (w.session.loaded.Some? ==> w.session.loaded.value.resultsKey == w.session.row.resultsKey)
      && (!w.pc.Final? ==> w.session.changes.resultsKey == None))
    && (BeforeStore(w.pc) ==> NoKey(w.session))
  }

  function UsedAfter(e: Event, used: set<Key>): set<Key> {
    if e.Stored? || e.NotStored? then used + {e.key} else used
  }

  lemma PayloadKeySoundOkInLoop(cfg: Config, q: QueryId, w: Worker, backend: map<Key, Payload>, used: set<Key>)
    requires PayloadKeySound(w, backend, used) && (w.pc.Start? || InLoop(w.pc))
    ensures PayloadKeySound(NextOk(cfg, q, w), backend, used)
  {
    hide LimitAfter, StatementLimits, BlockCount;
  }

  lemma PayloadKeySoundOkInTail(cfg: Config, q: QueryId, w: Worker, backend: map<Key, Payload>, used: set<Key>)
    requires PayloadKeySound(w, backend, used) && cfg.storeResults && cfg.resultsBackend && InTail(w.pc)
    ensures PayloadKeySound(NextOk(cfg, q, w), backend, used)
  {
  }

  lemma PayloadKeySoundOkAfterTail(cfg: Config, q: QueryId, w: Worker, backend: map<Key, Payload>, used: set<Key>)
    requires PayloadKeySound(w, backend, used) && FailureSeen(w) && !w.pc.Start? && !InLoop(w.pc) && !InTail(w.pc)
    ensures PayloadKeySound(NextOk(cfg, q, w), backend, used)
  {
  }

  lemma PayloadKeySoundOk(cfg: Config, q: QueryId, w: Worker, backend: map<Key, Payload>, used: set<Key>)
    requires PayloadKeySound(w, backend, used) && FailureSeen(w) && cfg.storeResults && cfg.resultsBackend
    ensures PayloadKeySound(NextOk(cfg, q, w), backend, used)
  {
    hide NextOk, PayloadKeySound, FailureSeen;
    if w.pc.Start? || InLoop(w.pc) {
      PayloadKeySoundOkInLoop(cfg, q, w, backend, used);
    } else if InTail(w.pc) {
      PayloadKeySoundOkInTail(cfg, q, w, backend, used);
    } else {
      PayloadKeySoundOkAfterTail(cfg, q, w, backend, used);
    }
  }

  lemma PayloadKeySoundLibrary(cfg: Config, w: Worker, e: Event, backend: map<Key, Payload>, used: set<Key>)
    requires PayloadKeySound(w, backend, used) && !e.Stored? && !e.NotStored?
    ensures PayloadKeySound(NextLibrary(cfg, w, e), backend, used)
  {
    hide BlockLimit, Fetched, FetchedAll, Trimmed;
  }

  /** Other queries' fresh keys, and this query's own, change nothing for a payload already made. */
  lemma PayloadKeySoundGrows(w: Worker, backend: map<Key, Payload>, used: set<Key>, key: Key, payload: Payload)
    requires PayloadKeySound(w, backend, used) && key !in used && backend.Keys <= used
    ensures PayloadKeySound(w, backend, used + {key})
    ensures PayloadKeySound(w, backend[key := payload], used + {key})
  {
  }

  lemma PayloadKeySoundStored(cfg: Config, w: Worker, e: Event, backend: map<Key, Payload>, used: set<Key>)
    requires PayloadKeySound(w, backend, used) && backend.Keys <= used && cfg.storeResults && cfg.resultsBackend
    requires (e.Stored? || e.NotStored?) && e.key !in used
    ensures var after := NextLibrary(cfg, w, e);
      PayloadKeySound(after, BackendAfter(w, after, e, backend), used + {e.key})
  {
    if w.pc.Store? {
      assert e.key !in backend;
    } else {
      PayloadKeySoundGrows(w, backend, used, e.key, w.payload);
    }
  }

  /** A stop, a read or an exception. */
  lemma PayloadKeySoundOther(cfg: Config, q: QueryId, w: Worker, e: Event, backend: map<Key, Payload>, used: set<Key>)
    requires PayloadKeySound(w, backend, used) && (e == Stop || e == Reload || e == Raise)
    ensures PayloadKeySound(Next(cfg, q, w, e), backend, used)
  {
  }

  lemma PayloadKeySoundStep(cfg: Config, q: QueryId, w: Worker, e: Event, backend: map<Key, Payload>, used: set<Key>)
    requires PayloadKeySound(w, backend, used) && backend.Keys <= used && !Reuses(e, used)
    requires cfg.storeResults && cfg.resultsBackend && FailureSeen(w)
    ensures PayloadKeySound(Next(cfg, q, w, e), BackendAfter(w, Next(cfg, q, w, e), e, backend), UsedAfter(e, used))
  {
    hide NextOk, NextRaise, NextLibrary, FailureSeen, PayloadKeySound;
    if e.Stored? || e.NotStored? {
      PayloadKeySoundStored(cfg, w, e, backend, used);
    } else if e == Stop || e == Reload || e == Raise {
      PayloadKeySoundOther(cfg, q, w, e, backend, used);
    } else {
      PayloadKeySoundOk(cfg, q, w, backend, used);
      PayloadKeySoundLibrary(cfg, w, e, backend, used);
    }
  }

  // ----- All queries -----

  /** Every query starts fresh; the backend may already hold entries of earlier queries. */
  predicate FreshSystem(cfgs: map<QueryId, Config>, s: System) {
    && s.workers.Keys == cfgs.Keys
    && s.backend.Keys <= s.used
    && forall q :: q in s.workers ==> FreshWorker(q, s.workers[q])
  }

  predicate FreshWorker(q: QueryId, w: Worker) {
    FreshRow(w.session.row) && w == Initial(q, w.session.row)
  }

  predicate SystemSound(cfgs: map<QueryId, Config>, s: System) {
    && s.workers.Keys == cfgs.Keys
    && s.backend.Keys <= s.used
    && (forall q :: q in s.workers ==> KeySound(q, s.workers[q], s.backend) && FailureSeen(s.workers[q]))
    && (forall q :: q in s.workers && cfgs[q].storeResults && cfgs[q].resultsBackend ==>
          PayloadKeySound(s.workers[q], s.backend, s.used))
  }

  lemma SystemSoundStep(cfgs: map<QueryId, Config>, s: System, q: QueryId, e: Event)
    requires SystemSound(cfgs, s)
    ensures SystemSound(cfgs, SystemNext(cfgs, s, q, e))
  {
    hide Next, KeySound, PayloadKeySound, FailureSeen;
    if q in s.workers && !Reuses(e, s.used) {
      var w := s.workers[q];
      var after := Next(cfgs[q], q, w, e);
      KeySoundStep(cfgs[q], q, w, e, s.backend);
      FailureSeenStep(cfgs[q], q, w, e);
      if cfgs[q].storeResults && cfgs[q].resultsBackend {
        PayloadKeySoundStep(cfgs[q], q, w, e, s.backend, s.used);
      }
      if e.Stored? || e.NotStored? {
        forall p | p in s.workers && p != q
          ensures KeySound(p, s.workers[p], BackendAfter(w, after, e, s.backend))
          ensures cfgs[p].storeResults && cfgs[p].resultsBackend ==>
                    PayloadKeySound(s.workers[p], BackendAfter(w, after, e, s.backend), s.used + {e.key})
        {
          KeySoundGrows(p, s.workers[p], s.backend, e.key, after.payload);
          if cfgs[p].storeResults && cfgs[p].resultsBackend {
            PayloadKeySoundGrows(s.workers[p], s.backend, s.used, e.key, after.payload);
          }
        }
      }
    }
  }

  lemma {:induction false} SystemSoundRun(cfgs: map<QueryId, Config>, s: System, steps: seq<(QueryId, Event)>)
    requires FreshSystem(cfgs, s)
    ensures SystemSound(cfgs, SystemRun(cfgs, s, steps))
  {
    if steps == [] {
      hide Next;
    } else {
      var n := |steps| - 1;
      SystemSoundRun(cfgs, s, steps[..n]);
      SystemSoundStep(cfgs, SystemRun(cfgs, s, steps[..n]), steps[n].0, steps[n].1);
      hide SystemNext, SystemSound;
    }
  }

  /**
   * No dangling key, over all queries and schedules: a committed results key names an entry that
   * holds this query's success payload, with the data of its last block and that very key.
   */
  lemma NoDanglingKey(cfgs: map<QueryId, Config>, s: System, steps: seq<(QueryId, Event)>, q: QueryId)
    requires FreshSystem(cfgs, s) && q in s.workers
    ensures var end := SystemRun(cfgs, s, steps);
      && q in end.workers
      && (end.workers[q].session.row.resultsKey.Some? ==>
        var key := end.workers[q].session.row.resultsKey;
        key.value in end.backend
        && end.backend[key.value] == Payload(Some(q), Some(Success), end.workers[q].data, key))
  {
    hide SystemRun;
    SystemSoundRun(cfgs, s, steps);
  }

  /**
   * A successful run with a backend returns a payload that names a key in any case; the backend has
   * that key exactly when the row names it too.
   */
  lemma ReturnedKeyIsStoredIffCommitted(cfgs: map<QueryId, Config>, s: System, steps: seq<(QueryId, Event)>, q: QueryId)
    requires FreshSystem(cfgs, s) && q in s.workers && cfgs[q].storeResults && cfgs[q].resultsBackend
    ensures var end := SystemRun(cfgs, s, steps);
      && q in end.workers
      && (var pc := end.workers[q].pc;
          pc.Done? && pc.result.Some? && pc.result.value.status == Some(Success) ==>
          && pc.result.value.resultsKey.Some?
          && (pc.result.value.resultsKey.value in end.backend
              <==> end.workers[q].session.row.resultsKey == pc.result.value.resultsKey))
  {
    hide SystemRun;
    SystemSoundRun(cfgs, s, steps);
  }

  /**
   * A failed write in a run that returns its results: two steps later the row is SUCCESS without a
   * key, while the returned payload names the key that was never stored.
   */
  lemma FailedWriteLeavesKeyInPayload(cfg: Config, q: QueryId, row: Row, events: seq<Event>, key: Key)
    requires FreshRow(row) && cfg.storeResults && cfg.resultsBackend && cfg.returnResults
    requires Run(cfg, q, Initial(q, row), events).pc.Store?
    ensures var w := Run(cfg, q, Initial(q, row), events + [NotStored(key), Ok, Ok]);
      && w.pc.Done? && w.pc.result.Some? && w.pc.result.value.resultsKey == Some(key)
      && w.session.row.status == Success && w.session.row.resultsKey == None
  {
    var w0 := Run(cfg, q, Initial(q, row), events);
    RunUndecided(cfg, q, row, events);
    NoKeyBeforeStore(cfg, q, row, events);
    var w1 := Next(cfg, q, w0, NotStored(key));
    var w2 := Next(cfg, q, w1, Ok);
    var w3 := Next(cfg, q, w2, Ok);
    hide Next;
    RunThree(cfg, q, Initial(q, row), events, NotStored(key), Ok, Ok);
  }

  lemma RunThree(cfg: Config, q: QueryId, w: Worker, events: seq<Event>, a: Event, b: Event, c: Event)
    ensures Run(cfg, q, w, events + [a, b, c]) ==
      Next(cfg, q, Next(cfg, q, Next(cfg, q, Run(cfg, q, w, events), a), b), c)
  {
    hide Next;
    var w0 := Run(cfg, q, w, events);
    assert [a, b, c] == [a] + ([b] + [c]);
    RunAppend(cfg, q, w, events, [a, b, c]);
    RunAppend(cfg, q, w0, [a], [b] + [c]);
    RunAppend(cfg, q, Next(cfg, q, w0, a), [b], [c]);
    OneEvent(cfg, q, w0, a);
    OneEvent(cfg, q, Next(cfg, q, w0, a), b);
    OneEvent(cfg, q, Next(cfg, q, Next(cfg, q, w0, a), b), c);
  }

  lemma {:induction false} NoKeyBeforeStore(cfg: Config, q: QueryId, row: Row, events: seq<Event>)
    requires FreshRow(row)
    ensures BeforeStore(Run(cfg, q, Initial(q, row), events).pc) ==> NoKey(Run(cfg, q, Initial(q, row), events).session)
  {
    if events != [] {
      var n := |events| - 1;
      NoKeyBeforeStore(cfg, q, row, events[..n]);
      NoKeyStep(cfg, q, Run(cfg, q, Initial(q, row), events[..n]), events[n]);
      hide Next;
    }
  }

  lemma NoKeyOkInLoop(cfg: Config, q: QueryId, w: Worker)
    requires NoKey(w.session) && (w.pc.Start? || InLoop(w.pc))
    ensures NoKey(NextOk(cfg, q, w).session)
  {
    hide LimitAfter, StatementLimits, BlockCount;
  }

  lemma NoKeyOkAfterLoop(cfg: Config, q: QueryId, w: Worker)
    requires BeforeStore(w.pc) ==> NoKey(w.session)
    requires !w.pc.Start? && !InLoop(w.pc)
    ensures BeforeStore(NextOk(cfg, q, w).pc) ==> NoKey(NextOk(cfg, q, w).session)
  {
  }

  lemma NoKeyLibrary(cfg: Config, w: Worker, e: Event)
    requires BeforeStore(w.pc) ==> NoKey(w.session)
    ensures BeforeStore(NextLibrary(cfg, w, e).pc) ==> NoKey(NextLibrary(cfg, w, e).session)
  {
    hide BlockLimit, Fetched, FetchedAll, Trimmed;
  }

  lemma NoKeyStep(cfg: Config, q: QueryId, w: Worker, e: Event)
    requires BeforeStore(w.pc) ==> NoKey(w.session)
    ensures BeforeStore(Next(cfg, q, w, e).pc) ==> NoKey(Next(cfg, q, w, e).session)
  {
    hide NextOk, NextLibrary;
    if w.pc.Start? || InLoop(w.pc) {
      NoKeyOkInLoop(cfg, q, w);
    } else {
      NoKeyOkAfterLoop(cfg, q, w);
    }
    NoKeyLibrary(cfg, w, e);
  }
}
