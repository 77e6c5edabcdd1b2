/**
 * Histories of provisioning runs: any number of runs that may die anywhere, followed by one that
 * does not; and runs of another report beside a finished one.
 */
module ProvisionRuns {
  import opened Provision

  /** Each state comes from the one before it by a run with the next budget of API calls. */
  ghost predicate Runs(report: Report, states: seq<Tables>, budgets: seq<nat>) {
    && |states| == |budgets| + 1
    && forall n :: 0 <= n < |budgets| ==> RunOf(report, states[n], budgets[n], states[n + 1])
  }

  lemma RunsOneMore(report: Report, states: seq<Tables>, budgets: seq<nat>, calls: nat, after: Tables)
    requires Runs(report, states, budgets) && RunOf(report, states[|budgets|], calls, after)
    ensures Runs(report, states + [after], budgets + [calls])
  {
    hide RunOf;
    var all, next := states + [after], budgets + [calls];
    forall n | 0 <= n < |next| ensures RunOf(report, all[n], next[n], all[n + 1]) {
      if n < |budgets| {
        assert RunOf(report, states[n], budgets[n], states[n + 1]);
      }
    }
  }

  /**
   * Run the provisioner once per budget of API calls, then once more. However far the earlier runs
   * got, the store stays listable, and the last one ends with exactly one copy of everything unless
   * its own calls run out, which `CallsNeeded` calls do not. `states` are the tables between runs.
   */
  method RunsThenRun(store: Store, report: Report, budgets: seq<nat>, last: nat)
    returns (ok: bool, dataset: Id, ghost boards: seq<Id>, ghost states: seq<Tables>)
    requires store.Valid() && report.DistinctSlugs() && store.Listable() && store.HasRoom(report)
    modifies store
    ensures store.Valid() && store.Listable() && store.HasRoom(report)
    ensures store.Foreign(report) == old(store.Foreign(report))
    ensures OldOrDescribed(report, old(store.charts), store.charts)
    ensures Runs(report, states, budgets + [last])
    ensures states[0] == old(store.Snapshot()) && states[|budgets| + 1] == store.Snapshot()
    ensures if ok then store.Complete(report, dataset, boards) else store.calls == 0
    ensures Untouched(report, old(store.Snapshot()), store.Snapshot())
    ensures ok ==> OneCopy(report, dataset, boards, store.Snapshot())
    ensures last >= report.CallsNeeded() ==> ok
  {
    hide Others, OwnedIds, OldOrDescribed, RunOf, Runs, Untouched, OnlyOwnNew, OneCopy, BuiltIn;
    NoCharts(report, store.charts);
    states := [store.Snapshot()];
    StartOfRuns(report, store.Snapshot());
    assert budgets[..0] == [] && budgets[..|budgets|] == budgets;
    for n := 0 to |budgets|
      invariant store.Valid() && store.Listable() && store.HasRoom(report)
      invariant store.Foreign(report) == old(store.Foreign(report))
      invariant OldOrDescribed(report, old(store.charts), store.charts)
      invariant |states| == n + 1 && states[0] == old(store.Snapshot()) && states[n] == store.Snapshot()
      invariant Runs(report, states, budgets[..n])
    {
      ghost var before := store.charts;
      store.calls := budgets[n];
      var _, _, _ := store.Provision(report);
      OldOrDescribedAgain(report, old(store.charts), before, store.charts);
      RunsOneMore(report, states, budgets[..n], budgets[n], store.Snapshot());
      assert budgets[..n + 1] == budgets[..n] + [budgets[n]];
      states := states + [store.Snapshot()];
    }
    ghost var before := store.charts;
    store.calls := last;
    ok, dataset, boards := store.Provision(report);
    OldOrDescribedAgain(report, old(store.charts), before, store.charts);
    RunsOneMore(report, states, budgets, last, store.Snapshot());
    states := states + [store.Snapshot()];
    UntouchedIfOthersSame(report, old(store.Snapshot()), store.Snapshot());
  }

  lemma StartOfRuns(report: Report, t: Tables)
    ensures Runs(report, [t], [])
  {
  }

  // ----- Two reports on one store -----

  /** No slug or dataset name in common, and neither report's charts carry the other's marker. */
  ghost predicate Separate(a: Report, b: Report) {
    && a.dataset != b.dataset
    && (forall i, j :: 0 <= i < |a.pages| && 0 <= j < |b.pages| ==> a.pages[i].slug != b.pages[j].slug)
    && ChartsUnmarked(a, b.marker) && ChartsUnmarked(b, a.marker)
  }

  ghost predicate ChartsUnmarked(r: Report, marker: string) {
    forall k, m :: 0 <= k < |r.pages| && 0 <= m < |r.pages[k].charts| ==>
      !Contains(r.Description(r.pages[k].charts[m]), marker)
  }

  lemma DescribedIsNotOwned(r: Report, other: Report, c: Chart)
    requires ChartsUnmarked(r, other.marker) && r.Describes(c)
    ensures !other.OwnsChart(c)
  {
  }

  /** Entries one report owns and the other does not stay put when the other's leave alone its own rest. */
  lemma OthersKeepEntry<T>(before: map<Id, T>, after: map<Id, T>, owned: T -> bool, id: Id)
    requires Others(before, owned) == Others(after, owned)
    requires (id in before && !owned(before[id])) || (id in after && !owned(after[id]))
    ensures id in before && id in after && before[id] == after[id]
  {
    assert id in Others(before, owned);
  }

  lemma OwnedUndisturbed<T>(before: map<Id, T>, after: map<Id, T>, mine: T -> bool, theirs: T -> bool)
    requires Others(before, theirs) == Others(after, theirs)
    requires forall id :: id in before && mine(before[id]) ==> !theirs(before[id])
    requires forall id :: id in after && mine(after[id]) ==> !theirs(after[id])
    ensures OwnedIds(after, mine) == OwnedIds(before, mine)
    ensures forall id :: id in OwnedIds(before, mine) ==> id in before && id in after && after[id] == before[id]
  {
    forall id | id in OwnedIds(before, mine) + OwnedIds(after, mine)
      ensures id in before && id in after && after[id] == before[id]
    {
      OthersKeepEntry(before, after, theirs, id);
    }
  }

  lemma PlacedIsDescribed(report: Report, k: nat, dataset: Id, board: Id,
                          dashboards: map<Id, Dashboard>, charts: map<Id, Chart>, id: Id)
    requires k < |report.pages| && PageBuilt(report, report.pages[k], dataset, board, dashboards, charts)
    requires id in dashboards[board].position
    ensures id in charts && report.Describes(charts[id])
  {
    var m :| 0 <= m < |dashboards[board].position| && dashboards[board].position[m] == id;
    assert charts[id].description == report.Description(report.pages[k].charts[m]);
  }

  /** In a complete report, the charts with its marker are the ones its run described. */
  lemma OwnedIsDescribed(report: Report, dataset: Id, boards: seq<Id>,
                         dashboards: map<Id, Dashboard>, charts: map<Id, Chart>, id: Id)
    requires |boards| == |report.pages|
    requires forall k :: 0 <= k < |report.pages| ==>
      PageBuilt(report, report.pages[k], dataset, boards[k], dashboards, charts)
    requires NoStrayChart(report, (set b | b in boards), dashboards, charts)
    requires id in charts && report.OwnsChart(charts[id])
    ensures report.Describes(charts[id])
  {
    hide PageBuilt;
    var board := charts[id].dashboard;
    assert board in (set b | b in boards) && id in dashboards[board].position;
    var k :| 0 <= k < |boards| && boards[k] == board;
    PlacedIsDescribed(report, k, dataset, boards[k], dashboards, charts, id);
  }

  /**
   * Another report's run beside a complete one: however far it gets, the complete report stays
   * complete, its dashboards and charts unchanged; and if it ends, both reports are complete.
   */
  method RunBeside(store: Store, mine: Report, theirs: Report, dataset: Id, ghost boards: seq<Id>)
    returns (ok: bool, theirDataset: Id, ghost theirBoards: seq<Id>)
    requires store.Valid() && theirs.DistinctSlugs() && Separate(mine, theirs)
    requires store.Complete(mine, dataset, boards) && store.Listable()
    modifies store
    ensures store.Valid() && store.Complete(mine, dataset, boards)
    ensures if ok then store.Complete(theirs, theirDataset, theirBoards) else store.calls == 0
    ensures old(store.calls) >= theirs.CallsNeeded() ==> ok
    ensures forall id :: id in OwnedIds(old(store.dashboards), mine.OwnsDashboard) ==>
      id in store.dashboards && store.dashboards[id] == old(store.dashboards)[id]
    ensures forall id :: id in OwnedIds(old(store.charts), mine.OwnsChart) ==>
      id in store.charts && store.charts[id] == old(store.charts)[id]
  {
    hide Others, OwnedIds, Contains, OccursAt, PageBuilt, NoStrayChart, Separate, OldOrDescribed;
    hide Untouched, OnlyOwnNew, OneCopy;
    ok, theirDataset, theirBoards := store.Provision(theirs);
    Undisturbed(mine, theirs, dataset, boards, old(store.dashboards), old(store.charts), old(store.datasets),
                store.dashboards, store.charts, store.datasets);
  }

  lemma {:induction false} Undisturbed(mine: Report, theirs: Report, dataset: Id, boards: seq<Id>,
                    dashboards0: map<Id, Dashboard>, charts0: map<Id, Chart>, datasets0: map<Id, Dataset>,
                    dashboards: map<Id, Dashboard>, charts: map<Id, Chart>, datasets: map<Id, Dataset>)
    requires Separate(mine, theirs)
    requires Others(dashboards, theirs.OwnsDashboard) == Others(dashboards0, theirs.OwnsDashboard)
    requires Others(charts, theirs.OwnsChart) == Others(charts0, theirs.OwnsChart)
    requires Others(datasets, theirs.OwnsDataset) == Others(datasets0, theirs.OwnsDataset)
    requires OldOrDescribed(theirs, charts0, charts)
    requires |boards| == |mine.pages| && OwnedIds(dashboards0, mine.OwnsDashboard) == (set b | b in boards)
    requires forall k :: 0 <= k < |mine.pages| ==>
      PageBuilt(mine, mine.pages[k], dataset, boards[k], dashboards0, charts0)
    requires NoStrayChart(mine, (set b | b in boards), dashboards0, charts0)
    ensures OwnedIds(datasets, mine.OwnsDataset) == OwnedIds(datasets0, mine.OwnsDataset)
    ensures OwnedIds(dashboards, mine.OwnsDashboard) == OwnedIds(dashboards0, mine.OwnsDashboard)
    ensures OwnedIds(charts, mine.OwnsChart) == OwnedIds(charts0, mine.OwnsChart)
    ensures forall id :: id in OwnedIds(dashboards0, mine.OwnsDashboard) ==>
      id in dashboards0 && id in dashboards && dashboards[id] == dashboards0[id]
    ensures forall id :: id in OwnedIds(charts0, mine.OwnsChart) ==>
      id in charts0 && id in charts && charts[id] == charts0[id]
    ensures forall k :: 0 <= k < |mine.pages| ==> PageBuilt(mine, mine.pages[k], dataset, boards[k], dashboards, charts)
    ensures NoStrayChart(mine, (set b | b in boards), dashboards, charts)
  {
    hide Contains, OccursAt;
    OwnedUndisturbed(datasets0, datasets, mine.OwnsDataset, theirs.OwnsDataset);
    OwnedUndisturbed(dashboards0, dashboards, mine.OwnsDashboard, theirs.OwnsDashboard);
    forall id | id in charts0 && mine.OwnsChart(charts0[id]) ensures !theirs.OwnsChart(charts0[id]) {
      OwnedIsDescribed(mine, dataset, boards, dashboards0, charts0, id);
      DescribedIsNotOwned(mine, theirs, charts0[id]);
    }
    forall id | id in charts && mine.OwnsChart(charts[id]) ensures !theirs.OwnsChart(charts[id]) {
      if theirs.Describes(charts[id]) {
        DescribedIsNotOwned(theirs, mine, charts[id]);
      }
    }
    OwnedUndisturbed(charts0, charts, mine.OwnsChart, theirs.OwnsChart);
    forall k | 0 <= k < |mine.pages| ensures PageBuilt(mine, mine.pages[k], dataset, boards[k], dashboards, charts) {
      PageUndisturbed(mine, k, dataset, boards[k], dashboards0, charts0, dashboards, charts);
    }
    forall id | id in charts && mine.OwnsChart(charts[id])
      ensures charts[id].dashboard in (set b | b in boards) && charts[id].dashboard in dashboards
      ensures id in dashboards[charts[id].dashboard].position
    {
      assert id in OwnedIds(charts0, mine.OwnsChart);
      assert charts0[id].dashboard in OwnedIds(dashboards0, mine.OwnsDashboard);
    }
  }

  lemma PageUndisturbed(mine: Report, k: nat, dataset: Id, board: Id,
                        dashboards0: map<Id, Dashboard>, charts0: map<Id, Chart>,
                        dashboards: map<Id, Dashboard>, charts: map<Id, Chart>)
    requires k < |mine.pages| && PageBuilt(mine, mine.pages[k], dataset, board, dashboards0, charts0)
    requires forall id :: id in OwnedIds(dashboards0, mine.OwnsDashboard) ==>
      id in dashboards && dashboards[id] == dashboards0[id]
    requires forall id :: id in OwnedIds(charts0, mine.OwnsChart) ==> id in charts && charts[id] == charts0[id]
    ensures PageBuilt(mine, mine.pages[k], dataset, board, dashboards, charts)
  {
    hide Contains, OccursAt;
    assert board in OwnedIds(dashboards0, mine.OwnsDashboard);
    var position := dashboards0[board].position;
    forall m | 0 <= m < |position| ensures position[m] in charts && charts[position[m]] == charts0[position[m]] {
      DescriptionIsOwned(mine, mine.pages[k].charts[m]);
      assert position[m] in OwnedIds(charts0, mine.OwnsChart);
    }
  }

  // ----- When a description carries another report's marker -----

  ghost predicate PlainMarker(marker: string) {
    marker != [] && marker[0] != ' ' && '.' !in marker
  }

  lemma OccursMeans(text: string, part: string, i: nat)
    ensures OccursAt(text, part, i) <==>
      i + |part| <= |text| && forall p :: i <= p < i + |part| ==> text[p] == part[p - i]
  {
    if i + |part| <= |text| {
      var cut := text[i..i + |part|];
      assert forall p :: i <= p < i + |part| ==> text[p] == cut[p - i];
      assert forall q :: 0 <= q < |part| ==> cut[q] == text[i + q];
    }
  }

  /** An occurrence of a text without full stops does not cover a full stop. */
  lemma Inside(text: string, marker: string, i: nat, stop: nat)
    requires PlainMarker(marker) && OccursAt(text, marker, i) && stop < |text| && text[stop] == '.'
    ensures i + |marker| <= stop || stop < i
  {
    OccursMeans(text, marker, i);
  }

  /** A marker found in `left. right.` lies inside one of the two. */
  lemma WithinSentences(left: string, right: string, marker: string, i: nat)
    requires PlainMarker(marker) && OccursAt(left + ". " + right + ".", marker, i)
    ensures Contains(left, marker) || Contains(right, marker)
  {
    hide OccursAt;
    var text, n := left + ". " + right + ".", |left|;
    OccursMeans(text, marker, i);
    assert text[n] == '.' && text[n + 1] == ' ' && text[n + 2 + |right|] == '.' && text[i] == marker[0];
    Inside(text, marker, i, n);
    Inside(text, marker, i, n + 2 + |right|);
    if i < n {
      assert forall p :: 0 <= p < n ==> text[p] == left[p];
      OccursMeans(left, marker, i);
      assert Contains(left, marker);
    } else {
      var j := i - n - 2;
      assert forall p :: 0 <= p < |right| ==> right[p] == text[n + 2 + p];
      OccursMeans(right, marker, j);
      assert Contains(right, marker);
    }
  }

  lemma ContainedInWhole(before: string, part: string, after: string, marker: string)
    requires Contains(part, marker)
    ensures Contains(before + part + after, marker)
  {
    hide OccursAt;
    var i :| 0 <= i <= |part| - |marker| && OccursAt(part, marker, i);
    var text := before + part + after;
    OccursMeans(part, marker, i);
    assert forall p :: |before| <= p < |before| + |part| ==> text[p] == part[p - |before|];
    OccursMeans(text, marker, |before| + i);
  }

  /** A marker has no full stop, so it lies inside the describing marker or inside the chart's name. */
  lemma MarkerInDescription(r: Report, name: string, marker: string)
    requires PlainMarker(marker)
    ensures Contains(r.Description(name), marker) <==> Contains(r.marker, marker) || Contains(name, marker)
  {
    hide Contains, OccursAt, PlainMarker;
    if Contains(r.Description(name), marker) {
      var i := FirstFound(r.Description(name), marker);
      WithinSentences(r.marker, name, marker, i);
    }
    if Contains(r.marker, marker) {
      ContainedInWhole("", r.marker, ". " + name + ".", marker);
      assert "" + r.marker + (". " + name + ".") == r.Description(name);
    }
    if Contains(name, marker) {
      ContainedInWhole(r.marker + ". ", name, ".", marker);
    }
  }

  lemma FirstFound(text: string, marker: string) returns (i: nat)
    requires Contains(text, marker)
    ensures OccursAt(text, marker, i)
  {
    i :| 0 <= i <= |text| - |marker| && OccursAt(text, marker, i);
  }

  const PROGRAMME_MARKER := "XPBuilder training programme report"
  const USER_MARKER := "XPBuilder Moodle user report"
  const TEACHER_MARKER := "XPBuilder teacher performance report"
  const MARKERS := {PROGRAMME_MARKER, USER_MARKER, TEACHER_MARKER}

  /** Whether two texts with the same first character, found nowhere else in the first, are told apart. */
  lemma DiffersAt(text: string, part: string, at: nat)
    requires 0 < |part| && at < |part| && at < |text| && text[at] != part[at]
    requires forall i :: 0 < i < |text| ==> text[i] != part[0]
    ensures !Contains(text, part)
  {
    forall i | 0 <= i <= |text| - |part| ensures !OccursAt(text, part, i) {
      OccursMeans(text, part, i);
      assert i == 0 || text[i] != part[0];
    }
  }

  lemma MarkersApart()
    ensures forall a, b :: a in MARKERS && b in MARKERS && a != b ==> !Contains(a, b)
  {
    DiffersAt(PROGRAMME_MARKER, USER_MARKER, 10);
    DiffersAt(USER_MARKER, PROGRAMME_MARKER, 10);
    DiffersAt(PROGRAMME_MARKER, TEACHER_MARKER, 11);
    DiffersAt(TEACHER_MARKER, PROGRAMME_MARKER, 11);
    DiffersAt(USER_MARKER, TEACHER_MARKER, 10);
    DiffersAt(TEACHER_MARKER, USER_MARKER, 10);
  }

  ghost predicate NamesUnmarked(r: Report, marker: string) {
    forall k, m :: 0 <= k < |r.pages| && 0 <= m < |r.pages[k].charts| ==> !Contains(r.pages[k].charts[m], marker)
  }

  /** With the three reports' markers, charts are told apart exactly when no name quotes another marker. */
  lemma ReportsSeparate(r: Report, marker: string)
    requires r.marker in MARKERS && marker in MARKERS && marker != r.marker
    ensures ChartsUnmarked(r, marker) <==> NamesUnmarked(r, marker)
  {
    MarkersApart();
    assert PlainMarker(marker);
    forall k, m | 0 <= k < |r.pages| && 0 <= m < |r.pages[k].charts|
      ensures Contains(r.Description(r.pages[k].charts[m]), marker) <==> Contains(r.pages[k].charts[m], marker)
    {
      MarkerInDescription(r, r.pages[k].charts[m], marker);
    }
  }
}
