/** Packing charts into rows of a twelve-column grid (reports/provision_programme_dashboards.py). */
module Packing {

  datatype Chart = Chart(id: nat, name: string, vizType: string, width: nat)

  const COLUMNS := 12

  function Width(row: seq<Chart>): nat {
    if row == [] then 0 else Width(row[..|row| - 1]) + row[|row| - 1].width
  }

  function Concat(rows: seq<seq<Chart>>): seq<Chart> {
    if rows == [] then [] else Concat(rows[..|rows| - 1]) + rows[|rows| - 1]
  }

  ghost predicate NonEmpty(rows: seq<seq<Chart>>) {
    forall k :: 0 <= k < |rows| ==> rows[k] != []
  }

  ghost predicate Fit(rows: seq<seq<Chart>>) {
    forall k :: 0 <= k < |rows| ==> Width(rows[k]) <= COLUMNS
  }

  /** A row fits, unless its very first chart is already too wide for the grid. */
  predicate FitsUnlessWideFirst(row: seq<Chart>) {
    row != [] && (Width(row) <= COLUMNS || row[0].width > COLUMNS)
  }

  /** Every row is closed only because the first chart of the next one no longer fits. */
  ghost predicate ClosedLate(rows: seq<seq<Chart>>)
    requires NonEmpty(rows)
  {
    forall k :: 0 <= k < |rows| - 1 ==> Width(rows[k]) + FirstWidth(rows[k + 1]) > COLUMNS
  }

  function FirstWidth(row: seq<Chart>): nat
    requires row != []
  {
    row[0].width
  }

  /** What the greedy loop guarantees of its rows. */
  ghost predicate Greedy(rows: seq<seq<Chart>>) {
    && (forall k :: 0 <= k < |rows| ==> FitsUnlessWideFirst(rows[k]))
    && NonEmpty(rows) && ClosedLate(rows)
  }

  method RowsOf(charts: seq<Chart>) returns (rows: seq<seq<Chart>>)
    ensures Concat(rows) == charts
    ensures Greedy(rows)
    ensures Fit(rows) <==> (forall c :: c in charts ==> c.width <= COLUMNS)
    ensures forall split :: Concat(split) == charts && Fit(split)
              ==> |rows| <= |split|
  {
    hide Greedy;
    GreedyNothing();
    rows := [];
    var current: seq<Chart> := [];
    var used := 0;
    for i := 0 to |charts|
      invariant Concat(rows) + current == charts[..i]
      invariant used == Width(current)
      invariant current == [] ==> i == 0 && rows == []
      invariant current != [] ==> Greedy(rows + [current])
    {
      if current != [] && used + charts[i].width > COLUMNS {
        rows := rows + [current];
        assert Greedy(rows) && rows[|rows| - 1] == current && rows[..|rows| - 1] + [current] == rows;
        current, used := [], 0;
      }
      ghost var before := current;
      current := current + [charts[i]];
      used := used + charts[i].width;
      assert current[..|current| - 1] == before;
      GreedyStep(rows, before, charts[i]);
    }
    if current != [] {
      assert (rows + [current])[..|rows|] == rows;
      rows := rows + [current];
    }
    RowsFitAndAreFewest(charts, rows);
  }

  lemma GreedyNothing()
    ensures Greedy([])
  {
  }

  /** The next chart joins the open row if it fits there, and opens a row if that is just closed. */
  lemma GreedyStep(rows: seq<seq<Chart>>, current: seq<Chart>, chart: Chart)
    requires current != [] ==> Greedy(rows + [current]) && Width(current) + chart.width <= COLUMNS
    requires current == [] ==> Greedy(rows)
    requires current == [] && rows != [] ==> Width(rows[|rows| - 1]) + chart.width > COLUMNS
    ensures Greedy(rows + [current + [chart]])
  {
    var before, after := rows + [current], rows + [current + [chart]];
    assert (current + [chart])[..|current|] == current;
    assert FitsUnlessWideFirst(after[|rows|]);
    forall k | 0 <= k < |rows| ensures FitsUnlessWideFirst(after[k]) && after[k] != [] {
      assert after[k] == rows[k] == before[k];
    }
    forall k | 0 <= k < |rows| ensures Width(after[k]) + FirstWidth(after[k + 1]) > COLUMNS {
      assert after[k] == rows[k] == before[k];
      if k < |rows| - 1 {
        assert after[k + 1] == rows[k + 1] == before[k + 1];
      } else if current != [] {
        assert Width(before[k]) + FirstWidth(before[k + 1]) > COLUMNS;
      }
    }
  }

  // ----- Optimality -----

  lemma {:induction false} WidthAppend(a: seq<Chart>, b: seq<Chart>)
    ensures Width(a + b) == Width(a) + Width(b)
  {
    if b == [] {
      assert a + b == a;
    } else {
      WidthAppend(a, b[..|b| - 1]);
      assert (a + b)[..|a + b| - 1] == a + b[..|b| - 1];
    }
  }

  lemma WidthOfSlice(charts: seq<Chart>, a: nat, b: nat, c: nat, d: nat)
    requires a <= b <= c <= d <= |charts|
    ensures Width(charts[b..c]) <= Width(charts[a..d])
  {
    assert charts[a..d] == charts[a..b] + charts[b..c] + charts[c..d];
    WidthAppend(charts[a..b] + charts[b..c], charts[c..d]);
    WidthAppend(charts[a..b], charts[b..c]);
  }

  /** Where row k of a split starts. */
  function Start(rows: seq<seq<Chart>>, k: nat): nat
    requires k <= |rows|
  {
    |Concat(rows[..k])|
  }

  lemma {:induction false} RowIsSlice(rows: seq<seq<Chart>>, k: nat)
    requires k < |rows|
    ensures Start(rows, k) + |rows[k]| == Start(rows, k + 1) <= |Concat(rows)|
    ensures Concat(rows)[Start(rows, k)..Start(rows, k + 1)] == rows[k]
  {
    var n := |rows| - 1;
    assert rows[..k + 1][..k] == rows[..k];
    if k < n {
      RowIsSlice(rows[..n], k);
      assert rows[..n][..k] == rows[..k] && rows[..n][..k + 1] == rows[..k + 1];
      var all, init := Concat(rows), Concat(rows[..n]);
      assert all[Start(rows, k)..Start(rows, k + 1)] == init[Start(rows, k)..Start(rows, k + 1)];
    } else {
      assert rows[..k + 1] == rows;
    }
  }

  /** A slice that fits stops before the last chart of a slice that begins no earlier and does not fit. */
  lemma FittingStopsBefore(charts: seq<Chart>, a: nat, d: nat, s: nat, e: nat)
    requires a <= d <= |charts| && a <= s <= e < |charts|
    requires Width(charts[a..d]) <= COLUMNS < Width(charts[s..e + 1])
    ensures d <= e
  {
    if e < d {
      WidthOfSlice(charts, a, s, e + 1, d);
    }
  }

  lemma ClosedWidths(greedy: seq<seq<Chart>>, j: nat)
    requires Greedy(greedy) && j + 1 < |greedy|
    ensures greedy[j + 1] != [] && Width(greedy[j]) + greedy[j + 1][0].width > COLUMNS
  {
    hide Width;
    assert FitsUnlessWideFirst(greedy[j + 1]) && FirstWidth(greedy[j + 1]) == greedy[j + 1][0].width;
  }

  lemma JoinedWidth(charts: seq<Chart>, s: nat, e: nat, row: seq<Chart>, next: seq<Chart>)
    requires s <= e && e + |next| <= |charts| && next != []
    requires charts[s..e] == row && charts[e..e + |next|] == next
    ensures Width(charts[s..e + 1]) == Width(row) + next[0].width
  {
    assert charts[e] == charts[e..e + |next|][0];
    assert charts[s..e + 1] == row + [charts[e]];
    WidthAppend(row, [charts[e]]);
    assert [charts[e]][..0] == [];
  }

  /** A closed greedy row and the first chart of the next one are too wide together. */
  lemma ClosedRowIsFull(greedy: seq<seq<Chart>>, j: nat)
    requires Greedy(greedy) && j + 1 < |greedy|
    ensures Start(greedy, j) <= Start(greedy, j + 1) < |Concat(greedy)|
    ensures Width(Concat(greedy)[Start(greedy, j)..Start(greedy, j + 1) + 1]) > COLUMNS
  {
    ClosedWidths(greedy, j);
    hide *;
    RowIsSlice(greedy, j);
    RowIsSlice(greedy, j + 1);
    var s, e, next := Start(greedy, j), Start(greedy, j + 1), greedy[j + 1];
    assert Start(greedy, j + 1 + 1) == e + |next|;
    JoinedWidth(Concat(greedy), s, e, greedy[j], next);
  }

  lemma FittingRow(split: seq<seq<Chart>>, j: nat)
    requires Fit(split) && j < |split|
    ensures Start(split, j) <= Start(split, j + 1) <= |Concat(split)|
    ensures Width(Concat(split)[Start(split, j)..Start(split, j + 1)]) <= COLUMNS
  {
    RowIsSlice(split, j);
    hide Concat, Width, Start;
    assert Width(split[j]) <= COLUMNS;
  }

  /** One row more: no row that fits reaches past the chart that did not fit the greedy row. */
  lemma StaysAheadOneRow(greedy: seq<seq<Chart>>, split: seq<seq<Chart>>, j: nat)
    requires Concat(greedy) == Concat(split) && Greedy(greedy) && Fit(split)
    requires j < |split| && j + 1 < |greedy| && Start(split, j) <= Start(greedy, j)
    ensures Start(split, j + 1) <= Start(greedy, j + 1)
  {
    hide *;
    ClosedRowIsFull(greedy, j);
    FittingRow(split, j);
    FittingStopsBefore(Concat(greedy), Start(split, j), Start(split, j + 1), Start(greedy, j), Start(greedy, j + 1));
  }

  /** Greedy stays ahead: after k rows it has placed at least as many charts as any other split. */
  lemma {:induction false} GreedyStaysAhead(greedy: seq<seq<Chart>>, split: seq<seq<Chart>>, k: nat)
    requires Concat(greedy) == Concat(split)
    requires Greedy(greedy)
    requires Fit(split)
    requires k <= |split| && k <= |greedy|
    ensures Start(split, k) <= Start(greedy, k)
  {
    hide Greedy, Fit;
    if k > 0 {
      GreedyStaysAhead(greedy, split, k - 1);
      if k < |greedy| {
        StaysAheadOneRow(greedy, split, k - 1);
      } else {
        assert greedy[..k] == greedy;
        RowIsSlice(split, k - 1);
      }
    }
  }

  /** No order-preserving split of the charts into rows that fit uses fewer rows. */
  lemma PackingOptimal(greedy: seq<seq<Chart>>, split: seq<seq<Chart>>)
    requires Concat(greedy) == Concat(split)
    requires Greedy(greedy)
    requires Fit(split)
    ensures |greedy| <= |split|
  {
    assert split[..|split|] == split;
    if |split| < |greedy| {
      GreedyStaysAhead(greedy, split, |split|);
      RowIsSlice(greedy, |split|);
    }
  }

  lemma {:induction false} WidthAtLeast(row: seq<Chart>, i: nat)
    requires i < |row|
    ensures row[i].width <= Width(row)
  {
    if i < |row| - 1 {
      WidthAtLeast(row[..|row| - 1], i);
    }
  }

  /** The rows fit the grid exactly when every chart does, and then no split has fewer rows. */
  lemma RowsFitAndAreFewest(charts: seq<Chart>, rows: seq<seq<Chart>>)
    requires Concat(rows) == charts
    requires Greedy(rows)
    ensures Fit(rows) <==> (forall c :: c in charts ==> c.width <= COLUMNS)
    ensures forall split :: Concat(split) == charts && Fit(split)
              ==> |rows| <= |split|
  {
    forall split | Concat(split) == charts && Fit(split)
      ensures |rows| <= |split|
    {
      PackingOptimal(rows, split);
    }
    if Fit(rows) {
      forall i | 0 <= i < |charts| ensures charts[i].width <= COLUMNS {
        var k, m := RowOf(rows, i);
        WidthAtLeast(rows[k], m);
      }
    }
    if forall c :: c in charts ==> c.width <= COLUMNS {
      forall k | 0 <= k < |rows| ensures Width(rows[k]) <= COLUMNS {
        RowMember(rows, k, 0);
        assert rows[k][0] in charts;
      }
    }
  }

  lemma RowMember(rows: seq<seq<Chart>>, k: nat, m: nat)
    requires k < |rows| && m < |rows[k]|
    ensures Start(rows, k) + m < |Concat(rows)| && Concat(rows)[Start(rows, k) + m] == rows[k][m]
  {
    RowIsSlice(rows, k);
    assert rows[k][m] == Concat(rows)[Start(rows, k)..Start(rows, k + 1)][m];
  }

  lemma {:induction false} RowOf(rows: seq<seq<Chart>>, i: nat) returns (k: nat, m: nat)
    requires i < |Concat(rows)|
    ensures k < |rows| && m < |rows[k]| && rows[k][m] == Concat(rows)[i]
  {
    var n := |rows| - 1;
    if i < |Concat(rows[..n])| {
      k, m := RowOf(rows[..n], i);
    } else {
      k, m := n, i - |Concat(rows[..n])|;
    }
  }
}
