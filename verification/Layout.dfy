/** The dashboard's position dictionary, a tree encoded by ids (reports/provision_programme_dashboards.py). */
module Layout {
  import opened Decimal
  import opened Packing

  datatype Kind =
    | Version(version: string)
    | Header(text: string)
    | Root
    | Grid
    | Row
    | Box(chartId: nat, sliceName: string, width: nat, height: nat)

  /** An entry without a `children` or `parents` key has the empty list here. */
  datatype Entry = Entry(kind: Kind, children: seq<string>, parents: seq<string>)

  function ChartKey(id: nat): string {
    "CHART-" + Str(id)
  }

  function RowKey(k: nat): string {
    "ROW-" + Pad2(k)
  }

  const FRAME := {"DASHBOARD_VERSION_KEY", "HEADER_ID", "ROOT_ID", "GRID_ID"}

  lemma KeysDiffer(i: nat, j: nat)
    ensures ChartKey(i) == ChartKey(j) ==> i == j
    ensures RowKey(i) == RowKey(j) ==> i == j
    ensures ChartKey(i) != RowKey(j)
    ensures ChartKey(i) !in FRAME && RowKey(i) !in FRAME
  {
    assert ChartKey(i)[0] == ChartKey(j)[0] == 'C' && RowKey(i)[0] == RowKey(j)[0] == 'R' && RowKey(i)[2] == 'W';
    assert ChartKey(i)[6..] == Str(i) && ChartKey(j)[6..] == Str(j);
    assert RowKey(i)[4..] == Pad2(i) && RowKey(j)[4..] == Pad2(j);
    StrInjective(i, j);
    Pad2Injective(i, j);
    assert "ROOT_ID"[2] == 'O';
    forall f | f in FRAME ensures f == "ROOT_ID" || f[0] == 'D' || f[0] == 'H' || f[0] == 'G' {}
  }

  function Height(chart: Chart): nat {
    if chart.width <= 3 then 26 else if chart.vizType == "table" then 60 else 44
  }

  function BoxOf(chart: Chart): Kind {
    Box(chart.id, chart.name, chart.width, Height(chart))
  }

  function ChartKeys(charts: seq<Chart>): (keys: seq<string>)
    ensures |keys| == |charts| && forall i :: 0 <= i < |charts| ==> keys[i] == ChartKey(charts[i].id)
  {
    seq(|charts|, i requires 0 <= i < |charts| => ChartKey(charts[i].id))
  }

  function RowKeys(n: nat): (keys: seq<string>)
    ensures |keys| == n && forall k :: 0 <= k < n ==> keys[k] == RowKey(k)
  {
    seq(n, k requires 0 <= k < n => RowKey(k))
  }

  /** `key` repeated once for each chart of the row with that id. */
  function Holding(row: seq<Chart>, id: nat, key: string): seq<string> {
    if row == [] then []
    else Holding(row[..|row| - 1], id, key) + (if row[|row| - 1].id == id then [key] else [])
  }

  /** The keys of the rows that hold a chart with this id, once for each such chart. */
  function RowsHolding(rows: seq<seq<Chart>>, id: nat): seq<string> {
    if rows == [] then []
    else RowsHolding(rows[..|rows| - 1], id) + Holding(rows[|rows| - 1], id, RowKey(|rows| - 1))
  }

  const ABOVE_ROWS := ["ROOT_ID", "GRID_ID"]

  ghost predicate FrameOf(title: string, rows: nat, layout: map<string, Entry>) {
    && FRAME <= layout.Keys
    && layout["DASHBOARD_VERSION_KEY"] == Entry(Version("v2"), [], [])
    && layout["HEADER_ID"] == Entry(Header(title), [], [])
    && layout["ROOT_ID"] == Entry(Root, ["GRID_ID"], [])
    && layout["GRID_ID"] == Entry(Grid, RowKeys(rows), ["ROOT_ID"])
  }

  ghost predicate RowsOfLayout(rows: seq<seq<Chart>>, layout: map<string, Entry>) {
    forall k :: 0 <= k < |rows| ==>
      RowKey(k) in layout && layout[RowKey(k)] == Entry(Row, ChartKeys(rows[k]), ABOVE_ROWS)
  }

  /** Chart entries carry the fields of the last chart with their id, and every row that holds it. */
  ghost predicate Boxed(chart: Chart, above: seq<string>, layout: map<string, Entry>) {
    && ChartKey(chart.id) in layout
    && layout[ChartKey(chart.id)] == Entry(BoxOf(chart), [], above)
  }

  predicate LastWithId(charts: seq<Chart>, i: nat)
    requires i < |charts|
  {
    forall j :: i < j < |charts| ==> charts[j].id != charts[i].id
  }

  /** The dictionary has exactly the frame, one entry a chart id and one a row. */
  ghost predicate OnlyTheseKeys(charts: seq<Chart>, rows: nat, layout: map<string, Entry>) {
    forall key :: key in layout ==>
      || key in FRAME
      || (exists i :: 0 <= i < |charts| && key == ChartKey(charts[i].id))
      || (exists k: nat :: k < rows && key == RowKey(k))
  }

  ghost predicate IsLayout(title: string, charts: seq<Chart>, rows: seq<seq<Chart>>, layout: map<string, Entry>) {
    && Concat(rows) == charts
    && FrameOf(title, |rows|, layout)
    && RowsOfLayout(rows, layout)
    && OnlyTheseKeys(charts, |rows|, layout)
    && forall i :: 0 <= i < |charts| && LastWithId(charts, i) ==>
         Boxed(charts[i], ABOVE_ROWS + RowsHolding(rows, charts[i].id), layout)
  }

  /** The dictionary while rows are placed: `done` rows complete, then `row` with key `key` begun. */
  ghost predicate Placing(title: string, charts: seq<Chart>, done: seq<seq<Chart>>, row: seq<Chart>,
                          layout: map<string, Entry>) {
    && FrameOf(title, |done|, layout)
    && RowsOfLayout(done, layout)
    && (forall j :: 0 <= j < |charts| ==> ChartKey(charts[j].id) in layout && layout[ChartKey(charts[j].id)].kind.Box?)
    && forall j :: 0 <= j < |charts| && LastWithId(charts, j) ==>
         Boxed(charts[j], AboveChart(done, row, charts[j].id), layout)
  }

  function AboveChart(done: seq<seq<Chart>>, row: seq<Chart>, id: nat): seq<string> {
    ABOVE_ROWS + RowsHolding(done, id) + Holding(row, id, RowKey(|done|))
  }

  lemma NextBox(title: string, charts: seq<Chart>, c: Chart, layout: map<string, Entry>)
    requires Placing(title, charts, [], [], layout) && OnlyTheseKeys(charts, 0, layout)
    ensures Placing(title, charts + [c], [], [], layout[ChartKey(c.id) := Entry(BoxOf(c), [], ABOVE_ROWS)])
    ensures OnlyTheseKeys(charts + [c], 0, layout[ChartKey(c.id) := Entry(BoxOf(c), [], ABOVE_ROWS)])
  {
    hide ChartKey, RowKey;
    var after := layout[ChartKey(c.id) := Entry(BoxOf(c), [], ABOVE_ROWS)];
    var all := charts + [c];
    KeysDiffer(c.id, c.id);
    forall j | 0 <= j < |all|
      ensures ChartKey(all[j].id) in after && after[ChartKey(all[j].id)].kind.Box?
      ensures LastWithId(all, j) ==> Boxed(all[j], AboveChart([], [], all[j].id), after)
    {
      KeysDiffer(all[j].id, c.id);
      if j < |charts| && LastWithId(all, j) {
        assert all[|charts|].id != all[j].id;
        assert forall k :: j < k < |charts| ==> all[k] == charts[k];
        assert LastWithId(charts, j);
      }
    }
    forall key | key in after && key !in FRAME ensures exists i :: 0 <= i < |all| && key == ChartKey(all[i].id) {
      if key == ChartKey(c.id) {
        assert all[|charts|] == c;
      } else {
        var i :| 0 <= i < |charts| && key == ChartKey(charts[i].id);
        assert all[i] == charts[i];
      }
    }
  }

  lemma OpenRow(title: string, charts: seq<Chart>, done: seq<seq<Chart>>, keys: seq<string>, layout: map<string, Entry>)
    requires Placing(title, charts, done, [], layout) && OnlyTheseKeys(charts, |done|, layout)
    ensures OnlyTheseKeys(charts, |done| + 1, layout[RowKey(|done|) := Entry(Row, keys, ABOVE_ROWS)])
    ensures Placing(title, charts, done, [], layout[RowKey(|done|) := Entry(Row, keys, ABOVE_ROWS)])
  {
    hide ChartKey, RowKey;
    var after := layout[RowKey(|done|) := Entry(Row, keys, ABOVE_ROWS)];
    KeysDiffer(|done|, 0);
    forall k | 0 <= k < |done| ensures RowKey(k) in after && after[RowKey(k)] == layout[RowKey(k)] {
      KeysDiffer(k, |done|);
    }
    forall j | 0 <= j < |charts|
      ensures ChartKey(charts[j].id) in after && after[ChartKey(charts[j].id)] == layout[ChartKey(charts[j].id)] {
      KeysDiffer(charts[j].id, |done|);
    }
  }

  lemma NextInRow(title: string, charts: seq<Chart>, done: seq<seq<Chart>>, row: seq<Chart>, c: Chart,
                  layout: map<string, Entry>)
    requires Placing(title, charts, done, row, layout) && c in charts
    ensures var box := ChartKey(c.id);
      box in layout && layout[box].kind.Box?
      && var parents := layout[box].parents + [RowKey(|done|)];
      Placing(title, charts, done, row + [c], layout[box := layout[box].(parents := parents)])
  {
    hide ChartKey, RowKey;
    var box := ChartKey(c.id);
    var after := layout[box := layout[box].(parents := layout[box].parents + [RowKey(|done|)])];
    KeysDiffer(c.id, 0);
    assert (row + [c])[..|row|] == row;
    forall k | 0 <= k < |done| ensures RowKey(k) in after && after[RowKey(k)] == layout[RowKey(k)] {
      KeysDiffer(c.id, k);
    }
    forall j | 0 <= j < |charts|
      ensures ChartKey(charts[j].id) in after && after[ChartKey(charts[j].id)].kind.Box?
      ensures LastWithId(charts, j) ==> Boxed(charts[j], AboveChart(done, row + [c], charts[j].id), after)
    {
      KeysDiffer(charts[j].id, c.id);
      assert AboveChart(done, row + [c], c.id) == AboveChart(done, row, c.id) + [RowKey(|done|)];
    }
  }

  lemma CloseRow(title: string, charts: seq<Chart>, done: seq<seq<Chart>>, row: seq<Chart>, layout: map<string, Entry>)
    requires Placing(title, charts, done, row, layout)
    requires RowKey(|done|) in layout && layout[RowKey(|done|)] == Entry(Row, ChartKeys(row), ABOVE_ROWS)
    ensures "GRID_ID" in layout && Placing(title, charts, done + [row], [],
      layout["GRID_ID" := layout["GRID_ID"].(children := layout["GRID_ID"].children + [RowKey(|done|)])])
  {
    hide ChartKey, RowKey;
    var after := layout["GRID_ID" := layout["GRID_ID"].(children := layout["GRID_ID"].children + [RowKey(|done|)])];
    var all := done + [row];
    assert all[..|done|] == done;
    assert RowKeys(|all|) == RowKeys(|done|) + [RowKey(|done|)];
    forall k | 0 <= k < |all|
      ensures RowKey(k) in after && after[RowKey(k)] == Entry(Row, ChartKeys(all[k]), ABOVE_ROWS) {
      KeysDiffer(k, k);
      assert k < |done| ==> all[k] == done[k];
    }
    forall j | 0 <= j < |charts|
      ensures ChartKey(charts[j].id) in after && after[ChartKey(charts[j].id)] == layout[ChartKey(charts[j].id)]
      ensures AboveChart(all, [], charts[j].id) == AboveChart(done, row, charts[j].id)
    {
      KeysDiffer(charts[j].id, 0);
    }
  }

  function EmptyLayout(title: string): map<string, Entry> {
    map[
      "DASHBOARD_VERSION_KEY" := Entry(Version("v2"), [], []),
      "HEADER_ID" := Entry(Header(title), [], []),
      "ROOT_ID" := Entry(Root, ["GRID_ID"], []),
      "GRID_ID" := Entry(Grid, [], ["ROOT_ID"])
    ]
  }

  lemma EmptyLayoutPlaced(title: string)
    ensures Placing(title, [], [], [], EmptyLayout(title)) && OnlyTheseKeys([], 0, EmptyLayout(title))
  {
    hide ChartKey, RowKey;
  }

  lemma SameKeys(charts: seq<Chart>, rows: nat, a: map<string, Entry>, b: map<string, Entry>)
    requires OnlyTheseKeys(charts, rows, a) && a.Keys == b.Keys
    ensures OnlyTheseKeys(charts, rows, b)
  {
    hide ChartKey, RowKey;
    forall key ensures key in b <==> key in a {
      assert key in b.Keys <==> key in a.Keys;
    }
  }

  lemma Placed(title: string, charts: seq<Chart>, rows: seq<seq<Chart>>, layout: map<string, Entry>)
    requires Placing(title, charts, rows, [], layout) && OnlyTheseKeys(charts, |rows|, layout) && Concat(rows) == charts
    ensures IsLayout(title, charts, rows, layout)
  {
    hide ChartKey, RowKey;
    forall j | 0 <= j < |charts|
      ensures AboveChart(rows, [], charts[j].id) == ABOVE_ROWS + RowsHolding(rows, charts[j].id) {}
  }

  /** The first loop of `LayoutFor`: one entry a chart, not yet in a row. */
  method PlaceBoxes(title: string, charts: seq<Chart>) returns (layout: map<string, Entry>)
    ensures Placing(title, charts, [], [], layout) && OnlyTheseKeys(charts, 0, layout)
  {
    hide *;
    layout := EmptyLayout(title);
    EmptyLayoutPlaced(title);
    assert charts[..0] == [];
    for i := 0 to |charts|
      invariant Placing(title, charts[..i], [], [], layout) && OnlyTheseKeys(charts[..i], 0, layout)
    {
      var c := charts[i];
      NextBox(title, charts[..i], c, layout);
      layout := layout[ChartKey(c.id) := Entry(BoxOf(c), [], ABOVE_ROWS)];
      assert charts[..i + 1] == charts[..i] + [c];
    }
    assert charts[..|charts|] == charts;
  }

  /** The inner loop of `AppendRow`: each chart of the row learns its parent. */
  method PlaceRow(title: string, charts: seq<Chart>, ghost done: seq<seq<Chart>>, row: seq<Chart>,
                  before: map<string, Entry>, ghost packed: seq<seq<Chart>>, key: string)
    returns (layout: map<string, Entry>)
    requires Placing(title, charts, done, [], before) && key == RowKey(|done|)
    requires Concat(packed) == charts && |done| < |packed| && row == packed[|done|]
    requires key in before && before[key] == Entry(Row, ChartKeys(row), ABOVE_ROWS)
    ensures Placing(title, charts, done, row, layout) && layout.Keys == before.Keys
    ensures layout[key] == before[key]
  {
    hide *;
    layout := before;
    for m := 0 to |row|
      invariant Placing(title, charts, done, row[..m], layout)
      invariant layout.Keys == before.Keys && layout[key] == before[key]
    {
      RowMember(packed, |done|, m);
      NextInRow(title, charts, done, row[..m], row[m], layout);
      KeysDiffer(row[m].id, |done|);
      var box := ChartKey(row[m].id);
      layout := layout[box := layout[box].(parents := layout[box].parents + [key])];
      assert row[..m + 1] == row[..m] + [row[m]];
    }
    assert row[..|row|] == row;
  }

  /** The body of the loop over rows: the row's entry, its charts' parents, its key in the grid. */
  method AppendRow(title: string, charts: seq<Chart>, done: seq<seq<Chart>>, row: seq<Chart>,
                   before: map<string, Entry>, ghost packed: seq<seq<Chart>>) returns (layout: map<string, Entry>)
    requires Placing(title, charts, done, [], before) && OnlyTheseKeys(charts, |done|, before)
    requires Concat(packed) == charts && |done| < |packed| && row == packed[|done|]
    ensures Placing(title, charts, done + [row], [], layout) && OnlyTheseKeys(charts, |done| + 1, layout)
  {
    hide *;
    var key := RowKey(|done|);
    OpenRow(title, charts, done, ChartKeys(row), before);
    layout := before[key := Entry(Row, ChartKeys(row), ABOVE_ROWS)];
    ghost var withRow := layout;
    layout := PlaceRow(title, charts, done, row, layout, packed, key);
    CloseRow(title, charts, done, row, layout);
    ghost var placed := layout;
    layout := layout["GRID_ID" := layout["GRID_ID"].(children := layout["GRID_ID"].children + [key])];
    assert layout.Keys == placed.Keys;
    SameKeys(charts, |done| + 1, withRow, layout);
  }

  /** The layout of the charts as the greedy packer arranges them. */
  ghost predicate LaidOut(title: string, charts: seq<Chart>, layout: map<string, Entry>) {
    exists rows :: Greedy(rows) && IsLayout(title, charts, rows, layout)
  }

  lemma IsLaidOut(title: string, charts: seq<Chart>, rows: seq<seq<Chart>>, layout: map<string, Entry>)
    requires Greedy(rows) && IsLayout(title, charts, rows, layout)
    ensures LaidOut(title, charts, layout)
  {
  }

  /** Besides `LaidOut`, what that means for the boxes. */
  method LayoutFor(title: string, charts: seq<Chart>) returns (layout: map<string, Entry>)
    ensures LaidOut(title, charts, layout)
    ensures forall i :: 0 <= i < |charts| && LastWithId(charts, i) ==> BoxShows(charts[i], layout)
    ensures DistinctIds(charts) && (forall c :: c in charts ==> c.width <= 12) ==> GridFits(layout)
  {
    hide *;
    layout := BuildLayout(title, charts);
    ShownAndPacked(title, charts, layout);
  }

  lemma ShownAndPacked(title: string, charts: seq<Chart>, layout: map<string, Entry>)
    requires LaidOut(title, charts, layout)
    ensures forall i :: 0 <= i < |charts| && LastWithId(charts, i) ==> BoxShows(charts[i], layout)
    ensures DistinctIds(charts) && (forall c :: c in charts ==> c.width <= 12) ==> GridFits(layout)
  {
    hide LaidOut, BoxShows, GridFits, ChartKey;
    forall i | 0 <= i < |charts| && LastWithId(charts, i) ensures BoxShows(charts[i], layout) {
      BoxesMean(title, charts, layout, i);
    }
    if DistinctIds(charts) && forall c :: c in charts ==> c.width <= 12 {
      GridIsPacked(title, charts, layout);
    }
  }

  method BuildLayout(title: string, charts: seq<Chart>) returns (layout: map<string, Entry>)
    ensures LaidOut(title, charts, layout)
  {
    hide *;
    layout := PlaceBoxes(title, charts);
    var packed := RowsOf(charts);
    assert packed[..0] == [];
    for k := 0 to |packed|
      invariant Placing(title, charts, packed[..k], [], layout) && OnlyTheseKeys(charts, k, layout)
    {
      assert packed[..k + 1] == packed[..k] + [packed[k]];
      layout := AppendRow(title, charts, packed[..k], packed[k], layout, packed);
    }
    assert packed[..|packed|] == packed;
    Placed(title, charts, packed, layout);
    IsLaidOut(title, charts, packed, layout);
  }

  // ----- The tree -----

  function ChildrenOf(layout: map<string, Entry>, id: string): seq<string> {
    if id in layout then layout[id].children else []
  }

  /** A path down the tree from the root. */
  ghost predicate IsPath(layout: map<string, Entry>, path: seq<string>) {
    && path != [] && path[0] == "ROOT_ID"
    && forall i :: 0 <= i < |path| - 1 ==> path[i + 1] in ChildrenOf(layout, path[i])
  }

  function PathTo(k: nat, id: nat): seq<string> {
    ["ROOT_ID", "GRID_ID", RowKey(k), ChartKey(id)]
  }

  lemma NextOnPath(layout: map<string, Entry>, path: seq<string>, i: nat)
    requires IsPath(layout, path) && i < |path|
    ensures i + 1 < |path| ==> path[i + 1] in ChildrenOf(layout, path[i])
  {
  }

  lemma RowOnPath(title: string, rows: nat, layout: map<string, Entry>, path: seq<string>) returns (k: nat)
    requires FrameOf(title, rows, layout) && IsPath(layout, path) && |path| > 2
    ensures k < rows && path[1] == "GRID_ID" && path[2] == RowKey(k)
  {
    hide ChartKey, RowKey;
    NextOnPath(layout, path, 0);
    NextOnPath(layout, path, 1);
    k :| 0 <= k < rows && path[2] == RowKey(k);
  }

  lemma FrameIsNoChart(title: string, rows: nat, layout: map<string, Entry>, path: seq<string>, id: nat)
    requires FrameOf(title, rows, layout) && IsPath(layout, path) && path[|path| - 1] == ChartKey(id)
    ensures |path| > 3
  {
    hide ChartKey, RowKey;
    KeysDiffer(id, id);
    NextOnPath(layout, path, 0);
    if |path| == 3 {
      var k := RowOnPath(title, rows, layout, path);
      KeysDiffer(id, k);
    }
  }

  /** A chart's entry is a leaf. */
  lemma ChartIsLeaf(charts: seq<Chart>, rows: seq<seq<Chart>>, layout: map<string, Entry>, id: nat)
    requires exists c :: c in charts && c.id == id
    requires forall i :: 0 <= i < |charts| && LastWithId(charts, i) ==>
      Boxed(charts[i], ABOVE_ROWS + RowsHolding(rows, charts[i].id), layout)
    ensures ChildrenOf(layout, ChartKey(id)) == []
  {
    hide ChartKey, RowKey, RowsHolding, LastWithId;
    var i := LastIndex(charts, id);
    assert Boxed(charts[i], ABOVE_ROWS + RowsHolding(rows, charts[i].id), layout);
  }

  lemma ChartOnPath(rows: seq<seq<Chart>>, layout: map<string, Entry>, path: seq<string>, k: nat) returns (m: nat)
    requires RowsOfLayout(rows, layout) && IsPath(layout, path) && |path| > 3
    requires k < |rows| && path[2] == RowKey(k)
    ensures m < |rows[k]| && path[3] == ChartKey(rows[k][m].id)
  {
    hide ChartKey, RowKey;
    NextOnPath(layout, path, 2);
    m :| 0 <= m < |rows[k]| && path[3] == ChartKey(rows[k][m].id);
  }

  lemma PathsOfLayout(title: string, charts: seq<Chart>, rows: seq<seq<Chart>>, layout: map<string, Entry>,
                      path: seq<string>, id: nat)
    returns (k: nat, m: nat)
    requires IsLayout(title, charts, rows, layout)
    requires IsPath(layout, path) && path[|path| - 1] == ChartKey(id)
    ensures k < |rows| && m < |rows[k]| && rows[k][m].id == id && path == PathTo(k, id)
  {
    hide ChartKey, RowKey, FrameOf, RowsOfLayout, OnlyTheseKeys, Boxed, RowsHolding, ChildrenOf;
    FrameIsNoChart(title, |rows|, layout, path, id);
    k := RowOnPath(title, |rows|, layout, path);
    m := ChartOnPath(rows, layout, path, k);
    RowMember(rows, k, m);
    assert rows[k][m] in charts;
    ChartIsLeaf(charts, rows, layout, rows[k][m].id);
    NextOnPath(layout, path, 3);
    assert |path| == 4;
    KeysDiffer(id, rows[k][m].id);
    assert path == PathTo(k, id);
  }

  lemma LastIndex(charts: seq<Chart>, id: nat) returns (i: nat)
    requires exists c :: c in charts && c.id == id
    ensures i < |charts| && charts[i].id == id && LastWithId(charts, i)
  {
    i := |charts| - 1;
    while charts[i].id != id
      invariant i < |charts| && forall j :: i < j < |charts| ==> charts[j].id != id
      decreases i
    {
      assert i > 0;
      i := i - 1;
    }
  }

  lemma PathExists(title: string, charts: seq<Chart>, rows: seq<seq<Chart>>, layout: map<string, Entry>, k: nat, m: nat)
    requires IsLayout(title, charts, rows, layout)
    requires k < |rows| && m < |rows[k]|
    ensures IsPath(layout, PathTo(k, rows[k][m].id))
  {
    hide ChartKey, RowKey;
    var path := PathTo(k, rows[k][m].id);
    assert RowKeys(|rows|)[k] == RowKey(k);
    assert ChartKeys(rows[k])[m] == ChartKey(rows[k][m].id);
    forall i | 0 <= i < 3 ensures path[i + 1] in ChildrenOf(layout, path[i]) {}
  }

  // ----- Charts that occur once -----

  function Occurrences(charts: seq<Chart>, id: nat): nat {
    if charts == [] then 0
    else Occurrences(charts[..|charts| - 1], id) + (if charts[|charts| - 1].id == id then 1 else 0)
  }

  lemma {:induction false} OccurrencesAppend(a: seq<Chart>, b: seq<Chart>, id: nat)
    ensures Occurrences(a + b, id) == Occurrences(a, id) + Occurrences(b, id)
  {
    if b == [] {
      assert a + b == a;
    } else {
      OccurrencesAppend(a, b[..|b| - 1], id);
      assert (a + b)[..|a + b| - 1] == a + b[..|b| - 1];
    }
  }

  lemma {:induction false} HoldingLength(row: seq<Chart>, id: nat, key: string)
    ensures |Holding(row, id, key)| == Occurrences(row, id)
    ensures forall i :: 0 <= i < |Holding(row, id, key)| ==> Holding(row, id, key)[i] == key
  {
    if row != [] {
      HoldingLength(row[..|row| - 1], id, key);
    }
  }

  lemma {:induction false} RowsHoldingLength(rows: seq<seq<Chart>>, id: nat)
    ensures |RowsHolding(rows, id)| == Occurrences(Concat(rows), id)
  {
    if rows != [] {
      var n := |rows| - 1;
      RowsHoldingLength(rows[..n], id);
      HoldingLength(rows[n], id, RowKey(n));
      OccurrencesAppend(Concat(rows[..n]), rows[n], id);
    }
  }

  lemma {:induction false} OccursWhereFound(charts: seq<Chart>, i: nat)
    requires i < |charts|
    ensures Occurrences(charts, charts[i].id) > 0
  {
    if i < |charts| - 1 {
      OccursWhereFound(charts[..|charts| - 1], i);
    }
  }

  lemma {:induction false} HeldByRow(rows: seq<seq<Chart>>, id: nat, k: nat) returns (p: nat)
    requires k < |rows| && Occurrences(rows[k], id) > 0
    ensures p < |RowsHolding(rows, id)| && RowsHolding(rows, id)[p] == RowKey(k)
  {
    hide ChartKey, RowKey;
    var n := |rows| - 1;
    HoldingLength(rows[n], id, RowKey(n));
    if k < n {
      p := HeldByRow(rows[..n], id, k);
    } else {
      p := |RowsHolding(rows[..n], id)|;
    }
  }

  lemma SinglyHeld(rows: seq<seq<Chart>>, id: nat, k: nat)
    requires k < |rows| && Occurrences(rows[k], id) > 0 && Occurrences(Concat(rows), id) == 1
    ensures RowsHolding(rows, id) == [RowKey(k)]
  {
    hide *;
    RowsHoldingLength(rows, id);
    var p := HeldByRow(rows, id, k);
    assert p == 0;
  }

  lemma OnlyPath(title: string, charts: seq<Chart>, rows: seq<seq<Chart>>, layout: map<string, Entry>,
                 path: seq<string>, id: nat)
    requires IsLayout(title, charts, rows, layout) && Occurrences(charts, id) == 1
    requires IsPath(layout, path) && path[|path| - 1] == ChartKey(id)
    ensures path == ABOVE_ROWS + RowsHolding(rows, id) + [ChartKey(id)]
  {
    hide ChartKey, RowKey, IsPath, RowsHolding, Occurrences, FrameOf, RowsOfLayout, OnlyTheseKeys, Boxed;
    var k, m := PathsOfLayout(title, charts, rows, layout, path, id);
    OccursWhereFound(rows[k], m);
    SinglyHeld(rows, id, k);
  }

  ghost predicate LeadsTo(layout: map<string, Entry>, path: seq<string>, id: nat) {
    IsPath(layout, path) && path[|path| - 1] == ChartKey(id)
  }

  /** The recorded parents of a chart are the path to it, for every path there is. */
  ghost predicate ParentsArePath(layout: map<string, Entry>, id: nat)
    requires ChartKey(id) in layout
  {
    forall path :: LeadsTo(layout, path, id) ==> layout[ChartKey(id)].parents + [ChartKey(id)] == path
  }

  lemma ParentsOfChart(title: string, charts: seq<Chart>, rows: seq<seq<Chart>>, layout: map<string, Entry>, i: nat)
    requires IsLayout(title, charts, rows, layout) && i < |charts|
    ensures ChartKey(charts[i].id) in layout && layout[ChartKey(charts[i].id)].kind.Box?
    ensures exists path :: LeadsTo(layout, path, charts[i].id)
    ensures ParentsArePath(layout, charts[i].id) <==> Occurrences(charts, charts[i].id) == 1
  {
    hide ChartKey, RowKey;
    var id := charts[i].id;
    var last := LastIndex(charts, id);
    assert Boxed(charts[last], ABOVE_ROWS + RowsHolding(rows, id), layout);
    var k, m := RowOf(rows, i);
    PathExists(title, charts, rows, layout, k, m);
    RowsHoldingLength(rows, id);
    OccursWhereFound(charts, i);
    assert LeadsTo(layout, PathTo(k, id), id);
    var parents := layout[ChartKey(id)].parents;
    assert |parents| == 2 + Occurrences(charts, id);
    if Occurrences(charts, id) == 1 {
      forall path | LeadsTo(layout, path, id) ensures parents + [ChartKey(id)] == path {
        OnlyPath(title, charts, rows, layout, path, id);
      }
    } else {
      assert |PathTo(k, id)| != |parents + [ChartKey(id)]|;
    }
  }

  /** Every chart has a box and a path from the root; its parents are that path exactly when its id occurs once. */
  lemma ParentsAreThePath(title: string, charts: seq<Chart>, layout: map<string, Entry>)
    requires LaidOut(title, charts, layout)
    ensures forall c :: c in charts ==>
      && ChartKey(c.id) in layout && layout[ChartKey(c.id)].kind.Box?
      && (exists path :: LeadsTo(layout, path, c.id))
      && (ParentsArePath(layout, c.id) <==> Occurrences(charts, c.id) == 1)
  {
    hide IsLayout, ChartKey, LeadsTo, ParentsArePath, Occurrences, Greedy;
    var rows :| Greedy(rows) && IsLayout(title, charts, rows, layout);
    forall i | 0 <= i < |charts|
      ensures ChartKey(charts[i].id) in layout && layout[ChartKey(charts[i].id)].kind.Box?
      ensures exists path :: LeadsTo(layout, path, charts[i].id)
      ensures ParentsArePath(layout, charts[i].id) <==> Occurrences(charts, charts[i].id) == 1
    {
      ParentsOfChart(title, charts, rows, layout, i);
    }
  }

  // ----- Reading order -----

  function ReadRows(layout: map<string, Entry>, rowKeys: seq<string>): seq<string> {
    if rowKeys == [] then []
    else ReadRows(layout, rowKeys[..|rowKeys| - 1]) + ChildrenOf(layout, rowKeys[|rowKeys| - 1])
  }

  lemma {:induction false} ReadRowsOf(rows: seq<seq<Chart>>, layout: map<string, Entry>)
    requires RowsOfLayout(rows, layout)
    ensures ReadRows(layout, RowKeys(|rows|)) == ChartKeys(Concat(rows))
  {
    hide ChartKey, RowKey;
    if rows != [] {
      var n := |rows| - 1;
      var keys := RowKeys(|rows|);
      assert forall k :: 0 <= k < n ==> rows[..n][k] == rows[k];
      ReadRowsOf(rows[..n], layout);
      assert keys[..n] == RowKeys(n) && keys[n] == RowKey(n);
      assert ChildrenOf(layout, keys[n]) == ChartKeys(rows[n]);
      assert ChartKeys(Concat(rows[..n]) + rows[n]) == ChartKeys(Concat(rows[..n])) + ChartKeys(rows[n]);
    }
  }

  /** Reading the grid's rows left to right gives the charts in input order. */
  lemma ReadingOrder(title: string, charts: seq<Chart>, layout: map<string, Entry>)
    requires LaidOut(title, charts, layout)
    ensures ChildrenOf(layout, "ROOT_ID") == ["GRID_ID"]
    ensures ReadRows(layout, ChildrenOf(layout, "GRID_ID")) == ChartKeys(charts)
  {
    hide Greedy, ChartKey, RowKey;
    var rows :| Greedy(rows) && IsLayout(title, charts, rows, layout);
    ReadRowsOf(rows, layout);
  }

  // ----- What the boxes say, and how they fill the grid -----

  /** The keys name the charts and the rows: a prefix, then the number in decimal, with two digits at least for rows. */
  lemma KeyTexts(n: nat)
    ensures ChartKey(n)[..6] == "CHART-" && AllDigits(ChartKey(n)[6..]) && Val(ChartKey(n)[6..]) == n
    ensures ChartKey(n)[6] == '0' ==> n == 0
    ensures RowKey(n)[..4] == "ROW-" && AllDigits(RowKey(n)[4..]) && Val(RowKey(n)[4..]) == n
    ensures |RowKey(n)| >= 6 && (|RowKey(n)| > 6 ==> RowKey(n)[4] != '0')
  {
    assert ChartKey(n)[6..] == Str(n) && RowKey(n)[4..] == Pad2(n);
    ValStr(n);
    LeadingDigit(n);
    if n < 10 {
      assert Pad2(n)[..1] == "0" && "0"[..0] == [];
    } else {
      assert |Str(n)| == |Str(n / 10)| + 1;
    }
  }

  predicate DistinctIds(charts: seq<Chart>) {
    forall i, j :: 0 <= i < j < |charts| ==> charts[i].id != charts[j].id
  }

  /** The box of a chart: its name, its width in columns, and its height by width and kind. */
  ghost predicate BoxShows(chart: Chart, layout: map<string, Entry>) {
    && ChartKey(chart.id) in layout && layout[ChartKey(chart.id)].children == []
    && var box := layout[ChartKey(chart.id)].kind;
    && box.Box? && box.chartId == chart.id && box.sliceName == chart.name && box.width == chart.width
    && (chart.width <= 3 ==> box.height == 26)
    && (chart.width > 3 && chart.vizType == "table" ==> box.height == 60)
    && (chart.width > 3 && chart.vizType != "table" ==> box.height == 44)
  }

  /** A box shows the last chart of its id. */
  lemma BoxesMean(title: string, charts: seq<Chart>, layout: map<string, Entry>, i: nat)
    requires LaidOut(title, charts, layout)
    requires i < |charts| && forall j :: i < j < |charts| ==> charts[j].id != charts[i].id
    ensures BoxShows(charts[i], layout)
  {
    hide Greedy, ChartKey, RowKey, RowsHolding, FrameOf, RowsOfLayout, OnlyTheseKeys;
    var rows :| Greedy(rows) && IsLayout(title, charts, rows, layout);
    assert LastWithId(charts, i);
    assert Boxed(charts[i], ABOVE_ROWS + RowsHolding(rows, charts[i].id), layout);
  }

  /** The columns that the boxes with these keys take up. */
  function BoxWidths(layout: map<string, Entry>, keys: seq<string>): nat {
    if keys == [] then 0
    else
      var key := keys[|keys| - 1];
      BoxWidths(layout, keys[..|keys| - 1])
      + (if key in layout && layout[key].kind.Box? then layout[key].kind.width else 0)
  }

  lemma {:induction false} BoxWidthsOf(layout: map<string, Entry>, row: seq<Chart>)
    requires forall m :: 0 <= m < |row| ==>
      var key := ChartKey(row[m].id);
      key in layout && layout[key].kind.Box? && layout[key].kind.width == row[m].width
    ensures BoxWidths(layout, ChartKeys(row)) == Width(row)
  {
    hide ChartKey;
    if row != [] {
      var n := |row| - 1;
      assert forall m :: 0 <= m < n ==> row[..n][m] == row[m];
      BoxWidthsOf(layout, row[..n]);
      assert ChartKeys(row)[..n] == ChartKeys(row[..n]);
    }
  }

  lemma RowBoxWidths(title: string, charts: seq<Chart>, rows: seq<seq<Chart>>, layout: map<string, Entry>, k: nat)
    requires DistinctIds(charts) && Concat(rows) == charts && LaidOut(title, charts, layout) && k < |rows|
    ensures BoxWidths(layout, ChartKeys(rows[k])) == Width(rows[k])
  {
    hide ChartKey, LaidOut, Width, Concat, Start;
    forall m | 0 <= m < |rows[k]|
      ensures ChartKey(rows[k][m].id) in layout && layout[ChartKey(rows[k][m].id)].kind.Box?
      ensures layout[ChartKey(rows[k][m].id)].kind.width == rows[k][m].width
    {
      RowMember(rows, k, m);
      BoxesMean(title, charts, layout, Start(rows, k) + m);
    }
    BoxWidthsOf(layout, rows[k]);
  }

  /** The boxes of every row of the grid take up at most twelve columns. */
  ghost predicate GridFits(layout: map<string, Entry>) {
    forall key :: key in ChildrenOf(layout, "GRID_ID") ==> BoxWidths(layout, ChildrenOf(layout, key)) <= 12
  }

  /** A split of the charts into rows of at most twelve columns. */
  ghost predicate FittingSplit(charts: seq<Chart>, split: seq<seq<Chart>>) {
    Concat(split) == charts && forall k :: 0 <= k < |split| ==> Width(split[k]) <= 12
  }

  /**
   * The dictionary itself, for charts with distinct ids of at most twelve columns each: the boxes of
   * every row of the grid take up at most twelve, and no split of the charts into such rows has
   * fewer rows than the grid.
   */
  lemma GridIsPacked(title: string, charts: seq<Chart>, layout: map<string, Entry>)
    requires LaidOut(title, charts, layout) && DistinctIds(charts)
    requires forall c :: c in charts ==> c.width <= 12
    ensures GridFits(layout)
    ensures forall split :: FittingSplit(charts, split) ==> |ChildrenOf(layout, "GRID_ID")| <= |split|
  {
    hide Greedy, ChartKey, RowKey, Boxed, Width, Concat, BoxWidths;
    var rows :| Greedy(rows) && IsLayout(title, charts, rows, layout);
    RowsFitAndAreFewest(charts, rows);
    forall key | key in ChildrenOf(layout, "GRID_ID") ensures BoxWidths(layout, ChildrenOf(layout, key)) <= 12 {
      var k :| 0 <= k < |rows| && key == RowKey(k);
      RowBoxWidths(title, charts, rows, layout, k);
    }
    forall split | FittingSplit(charts, split) ensures |rows| <= |split| {
      assert Fit(split);
    }
  }
}
