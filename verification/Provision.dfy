/**
 * A provisioning run (reports/provision_programme_dashboards.py, and the user report's in the same
 * shape): clean up what the report owns, then create its dataset, dashboards and charts. The store
 * serves a limited number of calls, so a run can die between any two of them.
 */
module Provision {
  import opened Sets
  import opened Wrappers

  type Id = nat

  datatype Dashboard = Dashboard(slug: string, position: seq<Id>)       // charts in layout order
  datatype Chart = Chart(description: string, dashboard: Id, dataset: Id)
  datatype Dataset = Dataset(name: string)

  /** A NULL slug or description is the empty string, which no report owns. */
  datatype Page = Page(slug: string, charts: seq<string>)               // one dashboard and its chart names

  datatype Report = Report(marker: string, dataset: string, pages: seq<Page>) {
    predicate OwnsDashboard(d: Dashboard) {
      exists k :: 0 <= k < |pages| && pages[k].slug == d.slug
    }

    predicate OwnsChart(c: Chart) {
      Contains(c.description, marker)
    }

    predicate OwnsDataset(d: Dataset) {
      d.name == dataset
    }

    function Description(name: string): string {
      marker + ". " + name + "."
    }

    /** A chart of this report, as a run describes it. */
    ghost predicate Describes(c: Chart) {
      exists k, m :: 0 <= k < |pages| && 0 <= m < |pages[k].charts| && c.description == Description(pages[k].charts[m])
    }

    function ChartCount(): nat {
      CountCharts(pages)
    }

    /** Enough calls for a whole run from a listable store. */
    function CallsNeeded(): nat {
      3 * (1 + PAGE_SIZE) + 4 + 2 * |pages| + ChartCount()
    }

    ghost predicate DistinctSlugs() {
      forall i, j :: 0 <= i < j < |pages| ==> pages[i].slug != pages[j].slug
    }
  }

  function CountCharts(pages: seq<Page>): nat {
    if pages == [] then 0 else CountCharts(pages[..|pages| - 1]) + |pages[|pages| - 1].charts|
  }

  predicate Contains(s: string, part: string) {
    exists i :: 0 <= i <= |s| - |part| && OccursAt(s, part, i)
  }

  predicate OccursAt(s: string, part: string, i: nat) {
    i + |part| <= |s| && s[i..i + |part|] == part
  }

  lemma DescriptionIsOwned(r: Report, name: string)
    ensures Contains(r.Description(name), r.marker)
  {
    assert OccursAt(r.Description(name), r.marker, 0);
  }

  /** One listing shows at most this many artifacts. */
  const PAGE_SIZE := 1000

  /** The entries of a table that a test does not select. */
  function Others<T>(table: map<Id, T>, owned: T -> bool): map<Id, T> {
    map id | id in table && !owned(table[id]) :: table[id]
  }

  function OwnedIds<T>(table: map<Id, T>, owned: T -> bool): set<Id> {
    set id | id in table && owned(table[id])
  }

  /** A table is what a test selects and the rest. */
  lemma SizeOfTable<T>(table: map<Id, T>, owned: T -> bool)
    ensures |table| == |Others(table, owned)| + |OwnedIds(table, owned)|
  {
    assert table.Keys == Others(table, owned).Keys + OwnedIds(table, owned);
    assert |table.Keys| == |Others(table, owned).Keys| + |OwnedIds(table, owned)|;
  }

  lemma SizeWithin<T>(kept: map<Id, T>, table: map<Id, T>)
    requires Within(kept, table)
    ensures |kept| <= |table|
  {
    SubsetSize(kept.Keys, table.Keys);
  }

  lemma RemovingOwned<T>(table: map<Id, T>, owned: T -> bool, removed: set<Id>)
    requires removed <= OwnedIds(table, owned)
    ensures Others(table - removed, owned) == Others(table, owned)
    ensures OwnedIds(table - removed, owned) == OwnedIds(table, owned) - removed
  {
  }

  lemma AddingOwned<T>(table: map<Id, T>, owned: T -> bool, id: Id, entry: T)
    requires id !in table && owned(entry)
    ensures Others(table[id := entry], owned) == Others(table, owned)
    ensures OwnedIds(table[id := entry], owned) == OwnedIds(table, owned) + {id}
  {
  }

  lemma ReplacingOwned<T>(table: map<Id, T>, owned: T -> bool, id: Id, entry: T)
    requires id in table && owned(table[id]) && owned(entry)
    ensures Others(table[id := entry], owned) == Others(table, owned)
    ensures OwnedIds(table[id := entry], owned) == OwnedIds(table, owned)
  {
  }

  /** Some of the entries of a table, unchanged. */
  ghost predicate Within<T>(kept: map<Id, T>, table: map<Id, T>) {
    forall id :: id in kept ==> id in table && kept[id] == table[id]
  }

  lemma PickOne(s: set<Id>)
    ensures s == {} || exists x :: x in s
  {
    assert (forall x :: x !in s) ==> s == {};
  }

  /** The ids one listing shows: all of them if they fit on a page. */
  method PageOf(ids: set<Id>) returns (page: set<Id>)
    ensures page <= ids && |page| <= PAGE_SIZE
    ensures |ids| <= PAGE_SIZE ==> page == ids
  {
    page := {};
    var rest := ids;
    while rest != {} && |page| < PAGE_SIZE
      invariant page !! rest && page + rest == ids && |page| <= PAGE_SIZE
      decreases rest
    {
      PickOne(rest);
      var id :| id in rest;
      page, rest := page + {id}, rest - {id};
    }
    if |ids| <= PAGE_SIZE {
      assert ids == page + rest;
    }
  }

  /** One loop of `cleanup`: list a resource, delete what is owned, or die when the calls run out. */
  method DeleteOwned<T>(table: map<Id, T>, owned: T -> bool, calls: nat) returns (kept: map<Id, T>, left: nat, ok: bool)
    ensures Others(kept, owned) == Others(table, owned) && Within(kept, table)
    ensures left <= calls && (!ok ==> left == 0)
    ensures |kept| <= |table| && (calls >= 1 + PAGE_SIZE ==> ok && left + 1 + PAGE_SIZE >= calls)
    ensures ok && |table| <= PAGE_SIZE ==> OwnedIds(kept, owned) == {}
  {
    kept, left, ok := table, calls, calls > 0;
    if !ok { return; }
    left := left - 1;
    var todo := PageOf(table.Keys);
    while todo != {}
      invariant todo <= kept.Keys && Within(kept, table) && left <= calls <= left + 1 + PAGE_SIZE - |todo|
      invariant Others(kept, owned) == Others(table, owned)
      invariant |table| <= PAGE_SIZE ==> OwnedIds(kept, owned) <= todo
      decreases todo
    {
      PickOne(todo);
      var id :| id in todo;
      todo := todo - {id};
      if owned(kept[id]) {
        if left == 0 {
          SizeWithin(kept, table);
          return kept, 0, false;
        }
        RemovingOwned(kept, owned, {id});
        left := left - 1;
        kept := kept - {id};
      }
    }
    SizeWithin(kept, table);
  }

  ghost predicate Distinct(ids: seq<Id>) {
    forall i, j :: 0 <= i < j < |ids| ==> ids[i] != ids[j]
  }

  /** Every chart was there before or is one this report's runs create. */
  ghost predicate OldOrDescribed(report: Report, charts0: map<Id, Chart>, charts: map<Id, Chart>) {
    forall id :: id in charts ==> (id in charts0 && charts[id] == charts0[id]) || report.Describes(charts[id])
  }

  // ----- What a complete run leaves -----

  /** The dashboard of page k: its charts, once each, in layout order, reading the report's dataset. */
  ghost predicate PageBuilt(report: Report, page: Page, dataset: Id, board: Id,
                            dashboards: map<Id, Dashboard>, charts: map<Id, Chart>) {
    && board in dashboards && dashboards[board].slug == page.slug
    && Placed(report, page, dataset, board, dashboards[board].position, charts)
    && |dashboards[board].position| == |page.charts|
  }

  ghost predicate Placed(report: Report, page: Page, dataset: Id, board: Id, position: seq<Id>,
                         charts: map<Id, Chart>) {
    && Distinct(position) && |position| <= |page.charts|
    && forall m :: 0 <= m < |position| ==>
         position[m] in charts && charts[position[m]] == Chart(report.Description(page.charts[m]), board, dataset)
  }

  /** Every owned chart stands on the dashboard it names. */
  ghost predicate NoStrayChart(report: Report, boards: set<Id>, dashboards: map<Id, Dashboard>,
                               charts: map<Id, Chart>) {
    forall id :: id in charts && report.OwnsChart(charts[id]) ==>
      && charts[id].dashboard in boards && charts[id].dashboard in dashboards
      && id in dashboards[charts[id].dashboard].position
  }

  /** The pages' dashboards, one each and no others owned, with all their charts. */
  ghost predicate BuiltIn(report: Report, pages: seq<Page>, dataset: Id, boards: seq<Id>,
                          dashboards: map<Id, Dashboard>, charts: map<Id, Chart>) {
    && |boards| == |pages| && Distinct(boards)
    && OwnedIds(dashboards, report.OwnsDashboard) == (set b | b in boards)
    && (forall k :: 0 <= k < |pages| ==> PageBuilt(report, pages[k], dataset, boards[k], dashboards, charts))
    && NoStrayChart(report, (set b | b in boards), dashboards, charts)
  }

  /** The old charts unchanged and the created ones, under new ids. */
  ghost predicate Added(charts0: map<Id, Chart>, charts: map<Id, Chart>, created: seq<Id>) {
    && charts.Keys == charts0.Keys + (set id | id in created)
    && (forall id :: id in charts0 ==> id in charts && charts[id] == charts0[id])
    && (forall id :: id in created ==> id !in charts0)
  }

  // ----- What a run that was cut short leaves -----

  datatype Tables = Tables(dashboards: map<Id, Dashboard>, charts: map<Id, Chart>, datasets: map<Id, Dataset>)

  /**
   * The first pages built, and possibly the dashboard of the next page open: still with its empty
   * layout, and with some of its charts.
   */
  ghost predicate OpenIn(report: Report, dataset: Id, boards: seq<Id>, open: Option<Id>,
                         dashboards: map<Id, Dashboard>, charts: map<Id, Chart>) {
    && |boards| <= |report.pages| && Distinct(boards)
    && OwnedIds(dashboards, report.OwnsDashboard) == (set b | b in boards) + (if open.Some? then {open.value} else {})
    && (forall k :: 0 <= k < |boards| ==> PageBuilt(report, report.pages[k], dataset, boards[k], dashboards, charts))
    && (open.Some? ==>
          && |boards| < |report.pages| && open.value !in boards && open.value in dashboards
          && dashboards[open.value] == Dashboard(report.pages[|boards|].slug, []))
    && OnlyChartsOf(report, dataset, boards, open, dashboards, charts)
  }

  /** Every owned chart stands on a built page or was meant for the open one. */
  ghost predicate OnlyChartsOf(report: Report, dataset: Id, boards: seq<Id>, open: Option<Id>,
                               dashboards: map<Id, Dashboard>, charts: map<Id, Chart>)
    requires |boards| <= |report.pages|
  {
    forall id :: id in charts && report.OwnsChart(charts[id]) ==>
      || (charts[id].dashboard in boards && charts[id].dashboard in dashboards
          && id in dashboards[charts[id].dashboard].position)
      || (open.Some? && |boards| < |report.pages| &&
          MeantFor(report, report.pages[|boards|], dataset, open.value, charts[id]))
  }

  ghost predicate MeantFor(report: Report, page: Page, dataset: Id, board: Id, c: Chart) {
    exists m :: 0 <= m < |page.charts| && c == Chart(report.Description(page.charts[m]), board, dataset)
  }

  /** Cut while cleaning up: some owned artifacts are gone, dashboards first, then charts, then datasets. */
  ghost predicate CutInCleanup(report: Report, before: Tables, after: Tables) {
    && Within(after.dashboards, before.dashboards)
    && Within(after.charts, before.charts) && Within(after.datasets, before.datasets)
    && (after.charts != before.charts ==> OwnedIds(after.dashboards, report.OwnsDashboard) == {})
    && (after.datasets != before.datasets ==> OwnedIds(after.charts, report.OwnsChart) == {})
  }

  /** Cut while building: no dataset yet, or the dataset with some of the pages. */
  ghost predicate CutInBuilding(report: Report, after: Tables) {
    || (OwnedIds(after.datasets, report.OwnsDataset) == {}
        && OwnedIds(after.dashboards, report.OwnsDashboard) == {} && OwnedIds(after.charts, report.OwnsChart) == {})
    || exists dataset, boards, open ::
         OwnedIds(after.datasets, report.OwnsDataset) == {dataset}
         && OpenIn(report, dataset, boards, open, after.dashboards, after.charts)
  }

  ghost predicate CompleteIn(report: Report, after: Tables) {
    exists dataset, boards ::
      OwnedIds(after.datasets, report.OwnsDataset) == {dataset}
      && BuiltIn(report, report.pages, dataset, boards, after.dashboards, after.charts)
  }

  /** What a run with so many calls does to a listable store: it ends, or its calls run out on the way. */
  ghost predicate RunOf(report: Report, before: Tables, calls: nat, after: Tables) {
    && Others(after.dashboards, report.OwnsDashboard) == Others(before.dashboards, report.OwnsDashboard)
    && Others(after.charts, report.OwnsChart) == Others(before.charts, report.OwnsChart)
    && Others(after.datasets, report.OwnsDataset) == Others(before.datasets, report.OwnsDataset)
    && OldOrDescribed(report, before.charts, after.charts)
    && (CompleteIn(report, after)
        || (calls < report.CallsNeeded() && (CutInCleanup(report, before, after) || CutInBuilding(report, after))))
  }

  // ----- The same, by slugs, names and descriptions -----

  predicate PageSlug(report: Report, slug: string) {
    exists k :: 0 <= k < |report.pages| && report.pages[k].slug == slug
  }

  /** Only dashboards with a page's slug, charts that carry the marker, and datasets of the name are touched. */
  ghost predicate Untouched(report: Report, before: Tables, after: Tables) {
    && (forall id :: id in before.dashboards && !PageSlug(report, before.dashboards[id].slug) ==>
          id in after.dashboards && after.dashboards[id] == before.dashboards[id])
    && (forall id :: id in before.charts && !Contains(before.charts[id].description, report.marker) ==>
          id in after.charts && after.charts[id] == before.charts[id])
    && (forall id :: id in before.datasets && before.datasets[id].name != report.dataset ==>
          id in after.datasets && after.datasets[id] == before.datasets[id])
  }

  /** What is new: dashboards with a page's slug, charts described by the report, datasets of its name. */
  ghost predicate OnlyOwnNew(report: Report, before: Tables, after: Tables) {
    && (forall id :: id in after.dashboards ==>
          PageSlug(report, after.dashboards[id].slug)
          || (id in before.dashboards && after.dashboards[id] == before.dashboards[id]))
    && (forall id :: id in after.charts ==>
          Contains(after.charts[id].description, report.marker)
          || (id in before.charts && after.charts[id] == before.charts[id]))
    && (forall id :: id in after.datasets ==>
          after.datasets[id].name == report.dataset
          || (id in before.datasets && after.datasets[id] == before.datasets[id]))
  }

  lemma SameOthers<T>(before: map<Id, T>, after: map<Id, T>, owned: T -> bool)
    requires Others(before, owned) == Others(after, owned)
    ensures forall id :: id in before && !owned(before[id]) ==> id in after && after[id] == before[id]
    ensures forall id :: id in after && !owned(after[id]) ==> id in before && after[id] == before[id]
  {
    forall id | (id in before && !owned(before[id])) || (id in after && !owned(after[id]))
      ensures id in before && id in after && after[id] == before[id]
    {
      assert id in Others(before, owned);
    }
  }

  lemma UntouchedIfOthersSame(report: Report, before: Tables, after: Tables)
    requires Others(before.dashboards, report.OwnsDashboard) == Others(after.dashboards, report.OwnsDashboard)
    requires Others(before.charts, report.OwnsChart) == Others(after.charts, report.OwnsChart)
    requires Others(before.datasets, report.OwnsDataset) == Others(after.datasets, report.OwnsDataset)
    ensures Untouched(report, before, after) && OnlyOwnNew(report, before, after)
  {
    hide Others, Contains;
    SameOthers(before.dashboards, after.dashboards, report.OwnsDashboard);
    SameOthers(before.charts, after.charts, report.OwnsChart);
    SameOthers(before.datasets, after.datasets, report.OwnsDataset);
  }

  /** The dashboard of page k with its charts in order, each on that dashboard and over the report's dataset. */
  ghost predicate Shows(report: Report, k: nat, dataset: Id, board: Id, t: Tables)
    requires k < |report.pages|
  {
    var page := report.pages[k];
    && board in t.dashboards && t.dashboards[board].slug == page.slug
    && |t.dashboards[board].position| == |page.charts|
    && forall m :: 0 <= m < |page.charts| ==>
         var id := t.dashboards[board].position[m];
         id in t.charts && t.charts[id].dashboard == board && t.charts[id].dataset == dataset
         && t.charts[id].description == report.marker + ". " + page.charts[m] + "."
  }

  /** One copy of everything, and nothing else with a page's slug, the marker or the dataset's name. */
  ghost predicate OneCopy(report: Report, dataset: Id, boards: seq<Id>, t: Tables) {
    && |boards| == |report.pages|
    && (forall k: nat :: k < |report.pages| ==> Shows(report, k, dataset, boards[k], t))
    && (forall id :: id in t.dashboards && PageSlug(report, t.dashboards[id].slug) ==> id in boards)
    && (forall id :: id in t.charts && Contains(t.charts[id].description, report.marker) ==>
          exists k :: 0 <= k < |boards| && boards[k] in t.dashboards && id in t.dashboards[boards[k]].position)
    && (forall id :: id in t.datasets ==> (t.datasets[id].name == report.dataset <==> id == dataset))
    && dataset in t.datasets
  }

  lemma CompleteIsOneCopy(report: Report, dataset: Id, boards: seq<Id>, t: Tables)
    requires OwnedIds(t.datasets, report.OwnsDataset) == {dataset}
    requires BuiltIn(report, report.pages, dataset, boards, t.dashboards, t.charts)
    ensures OneCopy(report, dataset, boards, t)
  {
    hide Contains;
    forall k: nat | k < |report.pages| ensures Shows(report, k, dataset, boards[k], t) {
      assert PageBuilt(report, report.pages[k], dataset, boards[k], t.dashboards, t.charts);
    }
    hide PageBuilt, Shows;
    forall id | id in t.dashboards && PageSlug(report, t.dashboards[id].slug) ensures id in boards {
      assert id in OwnedIds(t.dashboards, report.OwnsDashboard);
    }
    forall id | id in t.charts && Contains(t.charts[id].description, report.marker)
      ensures exists k :: 0 <= k < |boards| && boards[k] in t.dashboards && id in t.dashboards[boards[k]].position
    {
      assert report.OwnsChart(t.charts[id]) && t.charts[id].dashboard in boards;
    }
    forall id | id in t.datasets ensures t.datasets[id].name == report.dataset <==> id == dataset {
      assert id in OwnedIds(t.datasets, report.OwnsDataset) <==> id == dataset;
    }
    assert dataset in OwnedIds(t.datasets, report.OwnsDataset);
  }

  class Store {
    var dashboards: map<Id, Dashboard>
    var charts: map<Id, Chart>
    var datasets: map<Id, Dataset>
    var nextId: Id
    var calls: nat

    ghost predicate Valid()
      reads this
    {
      && (forall id :: id in dashboards ==> id < nextId)
      && (forall id :: id in charts ==> id < nextId)
      && (forall id :: id in datasets ==> id < nextId)
    }

    ghost function Snapshot(): Tables
      reads this
    {
      Tables(dashboards, charts, datasets)
    }

    ghost predicate Listable()
      reads this
    {
      |dashboards| <= 1000 && |charts| <= 1000 && |datasets| <= 1000
    }

    /** Beside the artifacts it does not own, a report's own still fit one listing each. */
    ghost predicate HasRoom(report: Report)
      reads this
    {
      && |Others(dashboards, report.OwnsDashboard)| + |report.pages| <= PAGE_SIZE
      && |Others(charts, report.OwnsChart)| + report.ChartCount() <= PAGE_SIZE
      && |Others(datasets, report.OwnsDataset)| + 1 <= PAGE_SIZE
    }

    ghost function Foreign(report: Report): (map<Id, Dashboard>, map<Id, Chart>, map<Id, Dataset>)
      reads this
    {
      (Others(dashboards, report.OwnsDashboard), Others(charts, report.OwnsChart), Others(datasets, report.OwnsDataset))
    }

    /** Exactly one copy of each owned dataset, dashboard and chart. */
    ghost predicate Complete(report: Report, dataset: Id, boards: seq<Id>)
      reads this
    {
      && OwnedIds(datasets, report.OwnsDataset) == {dataset}
      && Built(report, report.pages, dataset, boards)
    }

    ghost predicate Built(report: Report, pages: seq<Page>, dataset: Id, boards: seq<Id>)
      reads this
    {
      BuiltIn(report, pages, dataset, boards, dashboards, charts)
    }

    constructor ()
      ensures Valid() && Listable() && dashboards == map[] && charts == map[] && datasets == map[]
    {
      dashboards, charts, datasets, nextId, calls := map[], map[], map[], 1, 0;
    }

    method Cleanup(report: Report) returns (ok: bool)
      requires Valid()
      modifies this
      ensures Valid() && Foreign(report) == old(Foreign(report)) && (!ok ==> calls == 0)
      ensures Within(charts, old(charts))
      ensures |dashboards| <= old(|dashboards|) && |charts| <= old(|charts|) && |datasets| <= old(|datasets|)
      ensures old(calls) >= 3 * (1 + PAGE_SIZE) ==> ok && calls + 3 * (1 + PAGE_SIZE) >= old(calls)
      ensures old(Listable()) ==> CutInCleanup(report, old(Snapshot()), Snapshot())
      ensures ok && old(Listable()) ==>
        && OwnedIds(dashboards, report.OwnsDashboard) == {}
        && OwnedIds(charts, report.OwnsChart) == {}
        && OwnedIds(datasets, report.OwnsDataset) == {}
    {
      dashboards, calls, ok := DeleteOwned(dashboards, report.OwnsDashboard, calls);
      if !ok { return; }
      charts, calls, ok := DeleteOwned(charts, report.OwnsChart, calls);
      if !ok { return; }
      datasets, calls, ok := DeleteOwned(datasets, report.OwnsDataset, calls);
    }

    /** One API call; it raises once the calls are used up. */
    method Call() returns (ok: bool)
      modifies this`calls
      ensures ok <==> old(calls) > 0
      ensures calls == if ok then old(calls) - 1 else 0
    {
      ok := calls > 0;
      if ok {
        calls := calls - 1;
      }
    }

    method CreateDataset(report: Report) returns (ok: bool, id: Id)
      requires Valid()
      modifies this`datasets, this`nextId, this`calls
      ensures Valid() && old(nextId) <= nextId && (!ok ==> calls == 0)
      ensures Others(datasets, report.OwnsDataset) == old(Others(datasets, report.OwnsDataset))
      ensures ok ==> OwnedIds(datasets, report.OwnsDataset) == old(OwnedIds(datasets, report.OwnsDataset)) + {id}
      ensures datasets == old(datasets)
           || OwnedIds(datasets, report.OwnsDataset) == old(OwnedIds(datasets, report.OwnsDataset)) + {id}
      ensures |datasets| <= old(|datasets|) + 1
      ensures old(calls) >= 4 ==> ok && calls + 4 >= old(calls)
    {
      id := nextId;
      ok := Call();
      if !ok { return; }
      AddingOwned(datasets, report.OwnsDataset, id, Dataset(report.dataset));
      datasets, nextId := datasets[id := Dataset(report.dataset)], nextId + 1;
      ok := Call();        // the columns of the new dataset
      if !ok { return; }
      if * {               // none yet: refresh and read again
        ok := Call();
        if !ok { return; }
        ok := Call();
      }
    }

    /** The charts of one page, in order; each call that fails leaves the ones before it. */
    method CreateCharts(report: Report, page: Page, dataset: Id, board: Id) returns (ok: bool, created: seq<Id>)
      requires Valid()
      modifies this`charts, this`nextId, this`calls
      ensures Valid() && old(nextId) <= nextId && (!ok ==> calls == 0)
      ensures Others(charts, report.OwnsChart) == old(Others(charts, report.OwnsChart))
      ensures ok ==> |created| == |page.charts|
      ensures Placed(report, page, dataset, board, created, charts)
      ensures Added(old(charts), charts, created)
      ensures |charts| <= old(|charts|) + |page.charts|
      ensures old(calls) >= |page.charts| ==> ok && calls + |page.charts| == old(calls)
    {
      hide Others, Placed, Contains, Added;
      created, ok := [], true;
      NothingPlaced(report, page, dataset, board, charts);
      for m := 0 to |page.charts|
        invariant Valid() && old(nextId) <= nextId && |created| == m && ok
        invariant Others(charts, report.OwnsChart) == old(Others(charts, report.OwnsChart))
        invariant Placed(report, page, dataset, board, created, charts)
        invariant Added(old(charts), charts, created)
        invariant |charts| <= old(|charts|) + m && calls + m == old(calls)
      {
        ok := Call();
        if !ok { return; }
        var chart := Chart(report.Description(page.charts[m]), board, dataset);
        ChartAdded(report, page, dataset, board, created, charts, nextId);
        AddedOne(old(charts), charts, created, nextId, chart);
        charts := charts[nextId := chart];
        created := created + [nextId];
        nextId := nextId + 1;
      }
    }

    ghost predicate SlugFree(slug: string)
      reads this
    {
      forall id :: id in dashboards ==> dashboards[id].slug != slug
    }

    /** The empty dashboard of a page. A taken slug is refused. */
    method PostDashboard(report: Report, k: nat) returns (ok: bool, id: Id)
      requires Valid() && k < |report.pages|
      modifies this`dashboards, this`nextId, this`calls
      ensures Valid() && old(nextId) <= nextId && id == old(nextId)
      ensures calls == if old(calls) > 0 then old(calls) - 1 else 0
      ensures ok <==> old(calls) > 0 && old(SlugFree(report.pages[k].slug))
      ensures dashboards == if ok then old(dashboards)[id := Dashboard(report.pages[k].slug, [])] else old(dashboards)
      ensures Others(dashboards, report.OwnsDashboard) == old(Others(dashboards, report.OwnsDashboard))
      ensures id !in old(dashboards) && (ok ==> id < nextId) && |dashboards| <= old(|dashboards|) + 1
    {
      var page := report.pages[k];
      id := nextId;
      ok := Call();
      if !ok { return; }
      if exists d :: d in dashboards && dashboards[d].slug == page.slug {
        return false, id;
      }
      AddingOwned(dashboards, report.OwnsDashboard, id, Dashboard(page.slug, []));
      dashboards, nextId := dashboards[id := Dashboard(page.slug, [])], nextId + 1;
    }

    /** One page: its dashboard, then its charts, then the layout that places them. */
    method CreateDashboard(report: Report, k: nat, dataset: Id, ghost boards: seq<Id>) returns (ok: bool, id: Id)
      requires Valid() && k < |report.pages| && report.DistinctSlugs()
      modifies this`dashboards, this`charts, this`nextId, this`calls
      ensures Valid() && Foreign(report) == old(Foreign(report))
      ensures OldOrDescribed(report, old(charts), charts)
      ensures old(Built(report, report.pages[..k], dataset, boards)) ==>
        if ok then Built(report, report.pages[..k + 1], dataset, boards + [id]) else calls == 0
      ensures old(Built(report, report.pages[..k], dataset, boards)) && !ok ==>
        || OpenIn(report, dataset, boards, None, dashboards, charts)
        || OpenIn(report, dataset, boards, Some(id), dashboards, charts)
      ensures |dashboards| <= old(|dashboards|) + 1 && |charts| <= old(|charts|) + |report.pages[k].charts|
      ensures var needed := 2 + |report.pages[k].charts|;
        old(Built(report, report.pages[..k], dataset, boards)) && old(calls) >= needed ==>
          ok && calls + needed == old(calls)
    {
      hide Others, OwnedIds, BuiltIn, OpenIn, Placed, SlugFree, OldOrDescribed, Added;
      if old(Built(report, report.pages[..k], dataset, boards)) {
        SlugIsFree(report, k, dataset, boards);
        BetweenPages(report, k, dataset, boards, dashboards, charts);
      }
      NoCharts(report, charts);
      ok, id := PostDashboard(report, k);
      if !ok { return; }
      var created;
      ok, created := CreateCharts(report, report.pages[k], dataset, id);
      CreatedAreDescribed(report, k, dataset, id, created, old(charts), charts);
      if old(Built(report, report.pages[..k], dataset, boards)) {
        PageOpen(report, k, dataset, boards, id, created, old(dashboards), old(charts), dashboards, charts);
      }
      if !ok { return; }
      ok := PutLayout(report, k, id, created);
      if !ok { return; }
      if old(Built(report, report.pages[..k], dataset, boards)) {
        NextPageBuilt(report, k, dataset, boards, id, created, old(dashboards), old(charts), dashboards, charts);
      }
    }

    /** The layout of a page replaces its empty one. */
    method PutLayout(report: Report, k: nat, id: Id, created: seq<Id>) returns (ok: bool)
      requires Valid() && k < |report.pages| && id in dashboards &&
        dashboards[id] == Dashboard(report.pages[k].slug, [])
      modifies this`dashboards, this`calls
      ensures Valid() && (ok <==> old(calls) > 0) && calls == if ok then old(calls) - 1 else 0
      ensures dashboards == if ok then old(dashboards)[id := Dashboard(report.pages[k].slug, created)]
        else old(dashboards)
      ensures |dashboards| == old(|dashboards|)
      ensures Others(dashboards, report.OwnsDashboard) == old(Others(dashboards, report.OwnsDashboard))
    {
      ok := Call();
      if !ok { return; }
      ReplacingOwned(dashboards, report.OwnsDashboard, id, Dashboard(report.pages[k].slug, created));
      dashboards := dashboards[id := Dashboard(report.pages[k].slug, created)];
      assert dashboards.Keys == old(dashboards).Keys && |dashboards.Keys| == |old(dashboards).Keys|;
    }

    lemma SlugIsFree(report: Report, k: nat, dataset: Id, boards: seq<Id>)
      requires k < |report.pages| && report.DistinctSlugs() && Built(report, report.pages[..k], dataset, boards)
      ensures SlugFree(report.pages[k].slug)
    {
      var owned := OwnedIds(dashboards, report.OwnsDashboard);
      forall id | id in owned ensures dashboards[id].slug != report.pages[k].slug {
        var j :| 0 <= j < |boards| && boards[j] == id;
        assert PageBuilt(report, report.pages[..k][j], dataset, boards[j], dashboards, charts);
      }
      assert forall id :: id in dashboards && id !in owned ==> !report.OwnsDashboard(dashboards[id]);
    }

    lemma NothingBuilt(report: Report, dataset: Id)
      requires OwnedIds(dashboards, report.OwnsDashboard) == {} && OwnedIds(charts, report.OwnsChart) == {}
      ensures Built(report, report.pages[..0], dataset, [])
    {
      assert forall id :: id in charts ==> id !in OwnedIds(charts, report.OwnsChart);
    }

    /** The loop over the pages. */
    method CreatePages(report: Report, dataset: Id) returns (ok: bool, ghost boards: seq<Id>, ghost open: Option<Id>)
      requires Valid() && report.DistinctSlugs()
      modifies this`dashboards, this`charts, this`nextId, this`calls
      ensures Valid() && Foreign(report) == old(Foreign(report))
      ensures OldOrDescribed(report, old(charts), charts)
      ensures |dashboards| <= old(|dashboards|) + |report.pages| && |charts| <= old(|charts|) + report.ChartCount()
      ensures old(Built(report, report.pages[..0], dataset, [])) ==>
        && (if ok then Built(report, report.pages, dataset, boards)
            else calls == 0 && OpenIn(report, dataset, boards, open, dashboards, charts))
        && (old(calls) >= 2 * |report.pages| + report.ChartCount() ==> ok)
    {
      hide *;
      ok, boards, open := true, [], None;
      NoCharts(report, charts);
      assert report.pages[..|report.pages|] == report.pages;
      for k := 0 to |report.pages|
        invariant Valid() && Foreign(report) == old(Foreign(report)) && ok
        invariant OldOrDescribed(report, old(charts), charts)
        invariant |dashboards| <= old(|dashboards|) + k && |charts| <= old(|charts|) + CountCharts(report.pages[..k])
        invariant old(Built(report, report.pages[..0], dataset, [])) ==>
          Built(report, report.pages[..k], dataset, boards)
        invariant var needed := 2 * |report.pages| + report.ChartCount();
          old(Built(report, report.pages[..0], dataset, [])) && old(calls) >= needed ==>
          calls + 2 * k + CountCharts(report.pages[..k]) == old(calls)
      {
        CountCharted(report.pages, k);
        ghost var before := charts;
        var board;
        ok, board := CreateDashboard(report, k, dataset, boards);
        OldOrDescribedAgain(report, old(charts), before, charts);
        if !ok {
          open := if OpenIn(report, dataset, boards, None, dashboards, charts) then None else Some(board);
          return;
        }
        boards := boards + [board];
      }
    }

    /** Once cleaned up, a store with room takes the whole report. */
    lemma RoomWhenClean(report: Report)
      requires OwnedIds(dashboards, report.OwnsDashboard) == {} && OwnedIds(charts, report.OwnsChart) == {}
      requires OwnedIds(datasets, report.OwnsDataset) == {}
      ensures HasRoom(report) ==>
        && |dashboards| + |report.pages| <= PAGE_SIZE && |charts| + report.ChartCount() <= PAGE_SIZE
        && |datasets| + 1 <= PAGE_SIZE
    {
      SizeOfTable(dashboards, report.OwnsDashboard);
      SizeOfTable(charts, report.OwnsChart);
      SizeOfTable(datasets, report.OwnsDataset);
    }

    ghost predicate Clean(report: Report)
      reads this
    {
      && OwnedIds(dashboards, report.OwnsDashboard) == {} && OwnedIds(charts, report.OwnsChart) == {}
      && OwnedIds(datasets, report.OwnsDataset) == {}
    }

    /** The part of a run after `cleanup`. */
    method Build(report: Report) returns (ok: bool, dataset: Id, ghost boards: seq<Id>)
      requires Valid() && report.DistinctSlugs()
      modifies this
      ensures Valid() && Foreign(report) == old(Foreign(report))
      ensures OldOrDescribed(report, old(charts), charts)
      ensures |dashboards| <= old(|dashboards|) + |report.pages| && |charts| <= old(|charts|) + report.ChartCount()
      ensures |datasets| <= old(|datasets|) + 1
      ensures old(Clean(report)) ==>
        && (if ok then Complete(report, dataset, boards) else calls == 0 && CutInBuilding(report, Snapshot()))
        && (old(calls) >= 4 + 2 * |report.pages| + report.ChartCount() ==> ok)
    {
      hide Others, OwnedIds, BuiltIn, OpenIn, OldOrDescribed, CutInBuilding;
      boards := [];
      NoCharts(report, charts);
      ok, dataset := CreateDataset(report);
      if old(Clean(report)) {
        CutAtDataset(report, dataset, Snapshot());
      }
      if !ok { return; }
      if old(Clean(report)) {
        NothingBuilt(report, dataset);
      }
      ghost var open;
      ok, boards, open := CreatePages(report, dataset);
      if old(Clean(report)) && !ok {
        CutAtPage(report, dataset, boards, open, Snapshot());
      }
    }

    /**
     * A whole run; `ok` says whether it reached the end. From a listable store it does unless its
     * calls run out, and a store with room stays listable however far the run gets.
     */
    method Provision(report: Report) returns (ok: bool, dataset: Id, ghost boards: seq<Id>)
      requires Valid() && report.DistinctSlugs()
      modifies this
      ensures Valid() && Foreign(report) == old(Foreign(report))
      ensures OldOrDescribed(report, old(charts), charts)
      ensures old(Listable()) ==> if ok then Complete(report, dataset, boards) else calls == 0
      ensures Untouched(report, old(Snapshot()), Snapshot()) && OnlyOwnNew(report, old(Snapshot()), Snapshot())
      ensures old(Listable()) && ok ==> OneCopy(report, dataset, boards, Snapshot())
      ensures old(Listable()) && old(calls) >= report.CallsNeeded() ==> ok
      ensures old(Listable() && HasRoom(report)) ==> Listable() && HasRoom(report)
      ensures old(Listable()) ==> RunOf(report, old(Snapshot()), old(calls), Snapshot())
    {
      hide Untouched, OnlyOwnNew, OneCopy, Others, OwnedIds, BuiltIn, OldOrDescribed, RunOf;
      ok, dataset, boards := CleanAndBuild(report);
      UntouchedIfOthersSame(report, old(Snapshot()), Snapshot());
      if old(Listable()) && ok {
        CompleteIsOneCopy(report, dataset, boards, Snapshot());
      }
    }

    method CleanAndBuild(report: Report) returns (ok: bool, dataset: Id, ghost boards: seq<Id>)
      requires Valid() && report.DistinctSlugs()
      modifies this
      ensures Valid() && Foreign(report) == old(Foreign(report))
      ensures OldOrDescribed(report, old(charts), charts)
      ensures old(Listable()) ==> if ok then Complete(report, dataset, boards) else calls == 0
      ensures old(Listable()) && old(calls) >= report.CallsNeeded() ==> ok
      ensures old(Listable() && HasRoom(report)) ==> Listable() && HasRoom(report)
      ensures old(Listable()) ==> RunOf(report, old(Snapshot()), old(calls), Snapshot())
    {
      hide Others, OwnedIds, BuiltIn, OldOrDescribed, Within, Contains, CutInCleanup, CutInBuilding, CompleteIn;
      dataset, boards := 0, [];
      ok := Cleanup(report);
      KeptAreOld(report, old(charts), charts);
      if !ok { return; }
      ghost var cleaned := charts;
      if old(Listable()) {
        RoomWhenClean(report);
      }
      ok, dataset, boards := Build(report);
      OldOrDescribedAgain(report, old(charts), cleaned, charts);
      if old(Listable()) && ok {
        IsComplete(report, dataset, boards, Snapshot());
      }
    }
  }

  lemma OldOrDescribedAgain(report: Report, a: map<Id, Chart>, b: map<Id, Chart>, c: map<Id, Chart>)
    requires OldOrDescribed(report, a, b) && OldOrDescribed(report, b, c)
    ensures OldOrDescribed(report, a, c)
  {
  }

  lemma KeptAreOld(report: Report, charts0: map<Id, Chart>, charts: map<Id, Chart>)
    requires Within(charts, charts0)
    ensures OldOrDescribed(report, charts0, charts)
  {
  }

  lemma NoCharts(report: Report, charts: map<Id, Chart>)
    ensures CountCharts(report.pages[..0]) == 0 && report.ChartCount() == CountCharts(report.pages)
    ensures OldOrDescribed(report, charts, charts)
  {
  }

  lemma CountCharted(pages: seq<Page>, k: nat)
    requires k < |pages|
    ensures CountCharts(pages[..k + 1]) == CountCharts(pages[..k]) + |pages[k].charts|
    ensures CountCharts(pages[..k + 1]) <= CountCharts(pages)
  {
    assert pages[..k + 1][..k] == pages[..k];
    CountsGrow(pages, k + 1);
  }

  lemma {:induction false} CountsGrow(pages: seq<Page>, k: nat)
    requires k <= |pages|
    ensures CountCharts(pages[..k]) <= CountCharts(pages)
  {
    if k == |pages| {
      assert pages[..k] == pages;
    } else {
      var n := |pages| - 1;
      CountsGrow(pages[..n], k);
      assert pages[..n][..k] == pages[..k];
    }
  }

  lemma CreatedAreDescribed(report: Report, k: nat, dataset: Id, board: Id, created: seq<Id>,
                            charts0: map<Id, Chart>, charts: map<Id, Chart>)
    requires k < |report.pages| && Placed(report, report.pages[k], dataset, board, created, charts)
    requires Added(charts0, charts, created)
    ensures OldOrDescribed(report, charts0, charts)
  {
    forall m | 0 <= m < |created| ensures created[m] in charts && report.Describes(charts[created[m]]) {
      assert charts[created[m]].description == report.Description(report.pages[k].charts[m]);
    }
  }

  lemma NextPageBuilt(report: Report, k: nat, dataset: Id, boards: seq<Id>, board: Id, created: seq<Id>,
                      dashboards0: map<Id, Dashboard>, charts0: map<Id, Chart>,
                      dashboards: map<Id, Dashboard>, charts: map<Id, Chart>)
    requires k < |report.pages| && BuiltIn(report, report.pages[..k], dataset, boards, dashboards0, charts0)
    requires board !in dashboards0 && dashboards == dashboards0[board := Dashboard(report.pages[k].slug, created)]
    requires Placed(report, report.pages[k], dataset, board, created, charts) && |created| == |report.pages[k].charts|
    requires Added(charts0, charts, created)
    ensures BuiltIn(report, report.pages[..k + 1], dataset, boards + [board], dashboards, charts)
  {
    assert report.pages[..k + 1] == report.pages[..k] + [report.pages[k]];
    assert report.OwnsDashboard(Dashboard(report.pages[k].slug, created));
    PageAdded(report, report.pages[..k], report.pages[k], dataset, boards, board, created, dashboards0, charts0,
              dashboards, charts);
  }

  lemma NothingPlaced(report: Report, page: Page, dataset: Id, board: Id, charts: map<Id, Chart>)
    ensures Placed(report, page, dataset, board, [], charts) && Added(charts, charts, [])
  {
  }

  lemma AddedOne(charts0: map<Id, Chart>, charts: map<Id, Chart>, created: seq<Id>, id: Id, chart: Chart)
    requires Added(charts0, charts, created) && id !in charts
    ensures Added(charts0, charts[id := chart], created + [id])
  {
    assert (set i | i in created + [id]) == (set i | i in created) + {id};
  }

  /** The next chart of a page, under a new id. */
  lemma ChartAdded(report: Report, page: Page, dataset: Id, board: Id, created: seq<Id>, charts: map<Id, Chart>, id: Id)
    requires Placed(report, page, dataset, board, created, charts) && |created| < |page.charts| && id !in charts
    ensures var chart := Chart(report.Description(page.charts[|created|]), board, dataset);
      && Placed(report, page, dataset, board, created + [id], charts[id := chart])
      && Others(charts[id := chart], report.OwnsChart) == Others(charts, report.OwnsChart)
  {
    var chart := Chart(report.Description(page.charts[|created|]), board, dataset);
    DescriptionIsOwned(report, page.charts[|created|]);
    hide Contains;
    AddingOwned(charts, report.OwnsChart, id, chart);
    assert forall m :: 0 <= m < |created| ==> created[m] in charts;
  }

  lemma IsComplete(report: Report, dataset: Id, boards: seq<Id>, t: Tables)
    requires OwnedIds(t.datasets, report.OwnsDataset) == {dataset}
    requires BuiltIn(report, report.pages, dataset, boards, t.dashboards, t.charts)
    ensures CompleteIn(report, t)
  {
  }

  lemma CutAtPage(report: Report, dataset: Id, boards: seq<Id>, open: Option<Id>, t: Tables)
    requires OwnedIds(t.datasets, report.OwnsDataset) == {dataset}
    requires OpenIn(report, dataset, boards, open, t.dashboards, t.charts)
    ensures CutInBuilding(report, t)
  {
  }

  lemma CutAtDataset(report: Report, dataset: Id, t: Tables)
    requires OwnedIds(t.dashboards, report.OwnsDashboard) == {} && OwnedIds(t.charts, report.OwnsChart) == {}
    requires OwnedIds(t.datasets, report.OwnsDataset) == {} || OwnedIds(t.datasets, report.OwnsDataset) == {dataset}
    ensures CutInBuilding(report, t)
  {
    assert forall id :: id in t.charts ==> id !in OwnedIds(t.charts, report.OwnsChart);
    assert OpenIn(report, dataset, [], None, t.dashboards, t.charts);
  }

  lemma BetweenPages(report: Report, k: nat, dataset: Id, boards: seq<Id>, dashboards: map<Id, Dashboard>,
                     charts: map<Id, Chart>)
    requires k <= |report.pages| && BuiltIn(report, report.pages[..k], dataset, boards, dashboards, charts)
    ensures OpenIn(report, dataset, boards, None, dashboards, charts)
  {
    hide PageBuilt;
    assert forall j :: 0 <= j < k ==> report.pages[..k][j] == report.pages[j];
  }

  lemma PageOpen(report: Report, k: nat, dataset: Id, boards: seq<Id>, id: Id, created: seq<Id>,
                 dashboards0: map<Id, Dashboard>, charts0: map<Id, Chart>,
                 dashboards: map<Id, Dashboard>, charts: map<Id, Chart>)
    requires k < |report.pages| && BuiltIn(report, report.pages[..k], dataset, boards, dashboards0, charts0)
    requires id !in dashboards0 && dashboards == dashboards0[id := Dashboard(report.pages[k].slug, [])]
    requires Placed(report, report.pages[k], dataset, id, created, charts) && Added(charts0, charts, created)
    ensures OpenIn(report, dataset, boards, Some(id), dashboards, charts)
  {
    assert report.OwnsDashboard(Dashboard(report.pages[k].slug, []));
    AddingOwned(dashboards0, report.OwnsDashboard, id, Dashboard(report.pages[k].slug, []));
    forall b | b in boards ensures b in dashboards0 && b != id {
      assert b in OwnedIds(dashboards0, report.OwnsDashboard);
    }
    forall j | 0 <= j < k ensures PageBuilt(report, report.pages[j], dataset, boards[j], dashboards, charts) {
      assert PageBuilt(report, report.pages[..k][j], dataset, boards[j], dashboards0, charts0);
      assert dashboards[boards[j]] == dashboards0[boards[j]];
    }
    forall c | c in charts && report.OwnsChart(charts[c])
      ensures (charts[c].dashboard in boards && charts[c].dashboard in dashboards
               && c in dashboards[charts[c].dashboard].position)
           || MeantFor(report, report.pages[k], dataset, id, charts[c])
    {
      if c in charts0 {
        assert charts0[c].dashboard in (set b | b in boards);
      } else {
        assert c in created;
        var m :| 0 <= m < |created| && created[m] == c;
      }
    }
  }

  lemma PageAdded(report: Report, pages: seq<Page>, page: Page, dataset: Id, boards: seq<Id>, board: Id,
                  created: seq<Id>, dashboards0: map<Id, Dashboard>, charts0: map<Id, Chart>,
                  dashboards: map<Id, Dashboard>, charts: map<Id, Chart>)
    requires |boards| == |pages| && Distinct(boards)
    requires OwnedIds(dashboards0, report.OwnsDashboard) == (set b | b in boards)
    requires forall k :: 0 <= k < |pages| ==> PageBuilt(report, pages[k], dataset, boards[k], dashboards0, charts0)
    requires NoStrayChart(report, (set b | b in boards), dashboards0, charts0)
    requires board !in dashboards0 && report.OwnsDashboard(Dashboard(page.slug, created))
    requires dashboards == dashboards0[board := Dashboard(page.slug, created)]
    requires Placed(report, page, dataset, board, created, charts) && |created| == |page.charts|
    requires Added(charts0, charts, created)
    ensures Distinct(boards + [board])
    ensures OwnedIds(dashboards, report.OwnsDashboard) == (set b | b in boards + [board])
    ensures forall k :: 0 <= k < |pages + [page]| ==>
      PageBuilt(report, (pages + [page])[k], dataset, (boards + [board])[k], dashboards, charts)
    ensures NoStrayChart(report, (set b | b in boards + [board]), dashboards, charts)
  {
    AddingOwned(dashboards0, report.OwnsDashboard, board, Dashboard(page.slug, created));
    forall b | b in boards ensures b in dashboards0 && b != board {
      assert b in OwnedIds(dashboards0, report.OwnsDashboard);
    }
    assert (set b | b in boards + [board]) == (set b | b in boards) + {board};
    forall k | 0 <= k < |pages + [page]|
      ensures PageBuilt(report, (pages + [page])[k], dataset, (boards + [board])[k], dashboards, charts)
    {
      if k < |pages| {
        assert PageBuilt(report, pages[k], dataset, boards[k], dashboards0, charts0);
        assert dashboards[boards[k]] == dashboards0[boards[k]];
      }
    }
    forall id | id in charts && report.OwnsChart(charts[id])
      ensures charts[id].dashboard in (set b | b in boards + [board]) && charts[id].dashboard in dashboards
      ensures id in dashboards[charts[id].dashboard].position
    {
      if id in charts0 {
        assert charts0[id].dashboard in (set b | b in boards);
      } else {
        assert id in created;
        var m :| 0 <= m < |created| && created[m] == id;
        assert charts[created[m]].dashboard == board;
      }
    }
  }
}
