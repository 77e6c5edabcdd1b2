/**
 * The models of a migration (superset/scripts/benchmark_migration.py): the closure of the touched
 * tables over foreign keys, in an order that creates every referenced table first.
 */
module ForeignKeys {
  import opened Wrappers

  type Table = string

  /** The mapped tables, each with the tables its foreign keys name, in column order. */
  type Schema = map<Table, seq<Table>>

  // ----- Reachability -----

  /** A chain of foreign keys that starts in a touched table; all but its last table are mapped. */
  ghost predicate Chain(schema: Schema, touched: set<Table>, path: seq<Table>) {
    && path != [] && path[0] in touched
    && forall i :: 0 <= i < |path| - 1 ==> References(schema, path[i], path[i + 1])
  }

  predicate References(schema: Schema, from: Table, to: Table) {
    from in schema && to in schema[from]
  }

  ghost predicate Reachable(schema: Schema, touched: set<Table>, table: Table) {
    exists path :: Chain(schema, touched, path) && path[|path| - 1] == table
  }

  lemma ReachNext(schema: Schema, touched: set<Table>, from: Table, to: Table)
    requires Reachable(schema, touched, from) && References(schema, from, to)
    ensures Reachable(schema, touched, to)
  {
    var path :| Chain(schema, touched, path) && path[|path| - 1] == from;
    var longer := path + [to];
    forall i | 0 <= i < |longer| - 1 ensures References(schema, longer[i], longer[i + 1]) {
      if i < |path| - 1 {
        assert longer[i] == path[i] && longer[i + 1] == path[i + 1];
      }
    }
    assert Chain(schema, touched, longer);
  }

  /** A set that holds the touched tables and is closed under foreign keys holds all reachable ones. */
  lemma {:induction false} ChainStays(schema: Schema, touched: set<Table>, closed: set<Table>, path: seq<Table>)
    requires touched <= closed && Chain(schema, touched, path)
    requires forall a, b :: a in closed && References(schema, a, b) ==> b in closed
    ensures path[|path| - 1] in closed
  {
    if |path| > 1 {
      var n := |path| - 1;
      forall i | 0 <= i < |path[..n]| - 1 ensures References(schema, path[..n][i], path[..n][i + 1]) {
        assert References(schema, path[i], path[i + 1]);
      }
      ChainStays(schema, touched, closed, path[..n]);
      assert References(schema, path[n - 1], path[n - 1 + 1]);
    }
  }

  lemma ClosedHasReachable(schema: Schema, touched: set<Table>, closed: set<Table>, table: Table)
    requires touched <= closed && Reachable(schema, touched, table)
    requires forall a, b :: a in closed && References(schema, a, b) ==> b in closed
    ensures table in closed
  {
    var path :| Chain(schema, touched, path) && path[|path| - 1] == table;
    ChainStays(schema, touched, closed, path);
  }

  function Targets(schema: Schema): set<Table> {
    set t, u | t in schema && u in schema[t] :: u
  }

  lemma NonEmpty(s: set<Table>)
    ensures s == {} || exists x :: x in s
  {
    assert (forall x :: x !in s) ==> s == {};
  }

  ghost predicate NoDuplicates(s: seq<Table>) {
    forall i, j :: 0 <= i < j < |s| ==> s[i] != s[j]
  }

  /** What the worklist loop keeps. */
  ghost predicate Collecting(schema: Schema, touched: set<Table>, tables: set<Table>, seen: set<Table>,
                             done: set<Table>) {
    && tables + seen <= touched + Targets(schema) && tables !! seen && touched <= tables + seen && done <= seen
    && (forall t :: t in tables + seen ==> Reachable(schema, touched, t))
    && (forall a, b :: a in done && References(schema, a, b) ==> b in tables + seen)
  }

  /** The worklist loop: every mapped table reachable from the touched ones, once, and no other. */
  method CollectModels(schema: Schema, touched: set<Table>) returns (models: seq<Table>)
    ensures NoDuplicates(models)
    ensures forall t :: t in models <==> t in schema && Reachable(schema, touched, t)
  {
    hide Reachable, References;
    models := [];
    var tables, seen := touched, {};
    TouchedReachable(schema, touched);
    while tables != {}
      invariant Collecting(schema, touched, tables, seen, seen)
      invariant NoDuplicates(models) && forall t :: t in models <==> t in seen && t in schema
      decreases touched + Targets(schema) - seen
    {
      NonEmpty(tables);
      var table :| table in tables;
      ghost var before := seen;
      tables, seen := tables - {table}, seen + {table};
      Shrinks(touched + Targets(schema), before, table);
      if table in schema {
        models := models + [table];
        tables := AddTargets(schema, touched, table, tables, seen);
      } else {
        UnmappedRefersToNothing(schema, table);
      }
    }
    forall t ensures t in schema && Reachable(schema, touched, t) ==> t in models {
      if Reachable(schema, touched, t) {
        ClosedHasReachable(schema, touched, seen, t);
      }
    }
  }

  lemma TouchedReachable(schema: Schema, touched: set<Table>)
    ensures forall t :: t in touched ==> Reachable(schema, touched, t)
  {
    forall t | t in touched ensures Reachable(schema, touched, t) {
      assert Chain(schema, touched, [t]);
    }
  }

  lemma UnmappedRefersToNothing(schema: Schema, table: Table)
    requires table !in schema
    ensures forall b :: !References(schema, table, b)
  {
  }

  lemma Shrinks(all: set<Table>, seen: set<Table>, table: Table)
    requires table in all && table !in seen
    ensures all - (seen + {table}) < all - seen
  {
    assert table in all - seen && table !in all - (seen + {table});
  }

  /** The inner loop: the targets of a mapped table that were not seen yet join the worklist. */
  method AddTargets(schema: Schema, touched: set<Table>, table: Table, before: set<Table>, seen: set<Table>)
    returns (tables: set<Table>)
    requires Collecting(schema, touched, before, seen, seen - {table}) && table in seen && table in schema
    ensures Collecting(schema, touched, tables, seen, seen)
  {
    hide Reachable;
    tables := before;
    for k := 0 to |schema[table]|
      invariant Collecting(schema, touched, tables, seen, seen - {table})
      invariant forall m :: 0 <= m < k ==> schema[table][m] in tables + seen
    {
      var target := schema[table][k];
      assert References(schema, table, target) && target in Targets(schema);
      if target !in seen {
        ReachNext(schema, touched, table, target);
        tables := tables + {target};
      }
    }
  }

  // ----- Topological order -----

  /** The tables that must come before `t`: its foreign-key targets other than itself. */
  function Needs(schema: Schema, models: seq<Table>, t: Table): set<Table> {
    if t in models && t in schema then (set u | u in schema[t] && u != t) else {}
  }

  function Nodes(schema: Schema, models: seq<Table>): set<Table> {
    (set t | t in models) + (set t, u | t in models && u in Needs(schema, models, t) :: u)
  }

  /** A closed walk over foreign keys of the models, none of them a self-reference. */
  ghost predicate Cycle(schema: Schema, models: seq<Table>, walk: seq<Table>) {
    && |walk| >= 2 && walk[0] == walk[|walk| - 1]
    && forall i :: 0 <= i < |walk| - 1 ==> NeedsTable(schema, models, walk[i], walk[i + 1])
  }

  predicate NeedsTable(schema: Schema, models: seq<Table>, t: Table, u: Table) {
    t in models && References(schema, t, u) && t != u
  }

  lemma NeedsMeans(schema: Schema, models: seq<Table>, t: Table, u: Table)
    ensures u in Needs(schema, models, t) <==> NeedsTable(schema, models, t, u)
  {
  }

  ghost predicate Acyclic(schema: Schema, models: seq<Table>) {
    forall walk :: !Cycle(schema, models, walk)
  }

  /** A schema whose only references are self-references has no cycle, so there is always an order. */
  lemma SelfReferencesAreNoCycle(schema: Schema, models: seq<Table>)
    requires forall t, u :: References(schema, t, u) ==> t == u
    ensures Acyclic(schema, models)
  {
    forall walk ensures !Cycle(schema, models, walk) {
      if |walk| >= 2 {
        assert !NeedsTable(schema, models, walk[0], walk[0 + 1]);
      }
    }
  }

  /** Every table comes after all it needs. */
  ghost predicate InOrder(schema: Schema, models: seq<Table>, order: seq<Table>) {
    forall i, u :: 0 <= i < |order| && NeedsTable(schema, models, order[i], u) ==> u in order[..i]
  }

  /** The order of `TopologicalSorter.static_order`, or None where it raises CycleError. */
  method StaticOrder(schema: Schema, models: seq<Table>) returns (order: Option<seq<Table>>)
    requires forall t :: t in models ==> t in schema
    ensures order.Some? <==> Acyclic(schema, models)
    ensures order.Some? ==>
      && NoDuplicates(order.value) && InOrder(schema, models, order.value)
      && forall t :: t in order.value <==> t in Nodes(schema, models)
  {
    var nodes := Nodes(schema, models);
    var remaining, placed := nodes, [];
    while remaining != {}
      invariant NoDuplicates(placed) && InOrder(schema, models, placed)
      invariant forall t :: t in nodes <==> t in placed || t in remaining
      invariant forall t :: t in placed ==> t !in remaining
    {
      var ready := set t | t in remaining && Needs(schema, models, t) * remaining == {};
      NonEmpty(ready);
      if ready == {} {
        forall t | t in remaining ensures Needs(schema, models, t) * remaining != {} {
          assert t !in ready;
        }
        StuckIsCyclic(schema, models, remaining);
        return None;
      }
      var t :| t in ready;
      forall u | u in Needs(schema, models, t) ensures u in placed {
        assert u in nodes && u !in Needs(schema, models, t) * remaining;
      }
      ghost var before := placed;
      placed, remaining := placed + [t], remaining - {t};
      forall i, u | 0 <= i < |placed| && NeedsTable(schema, models, placed[i], u) ensures u in placed[..i] {
        if i < |before| {
          assert NeedsTable(schema, models, before[i], u);
          assert placed[..i] == before[..i];
        } else {
          assert placed[..i] == before;
        }
      }
    }
    OrderedIsAcyclic(schema, models, placed);
    return Some(placed);
  }

  // A set of tables that each need another one of the set contains a cycle.

  ghost predicate NeedsOneOf(schema: Schema, models: seq<Table>, stuck: set<Table>, t: Table) {
    exists u :: u in stuck && NeedsTable(schema, models, t, u)
  }

  lemma NeededOne(schema: Schema, models: seq<Table>, stuck: set<Table>, t: Table) returns (u: Table)
    requires NeedsOneOf(schema, models, stuck, t)
    ensures u in stuck && NeedsTable(schema, models, t, u)
  {
    u :| u in stuck && NeedsTable(schema, models, t, u);
  }

  lemma {:induction false} LongWalk(schema: Schema, models: seq<Table>, stuck: set<Table>, n: nat)
    returns (walk: seq<Table>)
    requires stuck != {} && forall t :: t in stuck ==> NeedsOneOf(schema, models, stuck, t)
    ensures |walk| == n + 1 && forall i :: 0 <= i < |walk| ==> walk[i] in stuck
    ensures forall i :: 0 <= i < n ==> NeedsTable(schema, models, walk[i], walk[i + 1])
  {
    hide NeedsTable, NeedsOneOf;
    if n == 0 {
      NonEmpty(stuck);
      var t :| t in stuck;
      walk := [t];
    } else {
      var shorter := LongWalk(schema, models, stuck, n - 1);
      var u := NeededOne(schema, models, stuck, shorter[n - 1]);
      walk := shorter + [u];
    }
  }

  lemma {:induction false} DistinctFit(s: seq<Table>, all: set<Table>)
    requires NoDuplicates(s) && forall i :: 0 <= i < |s| ==> s[i] in all
    ensures |s| <= |all|
  {
    if s != [] {
      var n := |s| - 1;
      DistinctFit(s[..n], all - {s[n]});
    }
  }

  lemma StuckIsCyclic(schema: Schema, models: seq<Table>, stuck: set<Table>)
    requires stuck != {} && forall t :: t in stuck ==> Needs(schema, models, t) * stuck != {}
    ensures !Acyclic(schema, models)
  {
    hide *;
    forall t | t in stuck ensures NeedsOneOf(schema, models, stuck, t) {
      StuckNeeds(schema, models, stuck, t);
    }
    var walk := LongWalk(schema, models, stuck, |stuck|);
    LongWalkRepeats(walk, stuck);
    var i, j :| 0 <= i < j < |walk| && walk[i] == walk[j];
    LoopIsCycle(schema, models, walk, i, j);
  }

  lemma StuckNeeds(schema: Schema, models: seq<Table>, stuck: set<Table>, t: Table)
    requires Needs(schema, models, t) * stuck != {}
    ensures NeedsOneOf(schema, models, stuck, t)
  {
    hide Needs;
    var both := Needs(schema, models, t) * stuck;
    NonEmpty(both);
    var u :| u in both;
    NeedsMeans(schema, models, t, u);
    assert NeedsTable(schema, models, t, u);
  }

  lemma LongWalkRepeats(walk: seq<Table>, stuck: set<Table>)
    requires |walk| == |stuck| + 1 && forall i :: 0 <= i < |walk| ==> walk[i] in stuck
    ensures exists i, j :: 0 <= i < j < |walk| && walk[i] == walk[j]
  {
    if NoDuplicates(walk) {
      DistinctFit(walk, stuck);
      assert false;
    }
  }

  lemma LoopIsCycle(schema: Schema, models: seq<Table>, walk: seq<Table>, i: nat, j: nat)
    requires i < j < |walk| && walk[i] == walk[j]
    requires forall k :: 0 <= k < |walk| - 1 ==> NeedsTable(schema, models, walk[k], walk[k + 1])
    ensures !Acyclic(schema, models)
  {
    hide NeedsTable;
    var loop := walk[i..j + 1];
    forall k | 0 <= k < |loop| - 1 ensures NeedsTable(schema, models, loop[k], loop[k + 1]) {
      assert NeedsTable(schema, models, walk[i + k], walk[i + k + 1]);
    }
    assert Cycle(schema, models, loop);
  }

  function Position(order: seq<Table>, t: Table): (p: nat)
    requires t in order
    ensures p < |order| && order[p] == t && t !in order[..p]
  {
    if order[0] == t then 0
    else
      assert order == [order[0]] + order[1..];
      var p := Position(order[1..], t) + 1;
      assert order[..p] == [order[0]] + order[1..][..p - 1];
      p
  }

  lemma PositionUnique(order: seq<Table>, i: nat)
    requires NoDuplicates(order) && i < |order|
    ensures Position(order, order[i]) == i
  {
  }

  /** Along a walk the positions in an order go down, so no walk returns. */
  lemma {:induction false} WalkDescends(schema: Schema, models: seq<Table>, order: seq<Table>, walk: seq<Table>)
    requires NoDuplicates(order) && InOrder(schema, models, order)
    requires |walk| >= 2 && walk[0] in order
    requires forall i :: 0 <= i < |walk| - 1 ==> NeedsTable(schema, models, walk[i], walk[i + 1])
    ensures walk[|walk| - 1] in order && Position(order, walk[|walk| - 1]) < Position(order, walk[0])
  {
    var n := |walk| - 1;
    if n > 1 {
      assert forall i :: 0 <= i < |walk[..n]| - 1 ==> NeedsTable(schema, models, walk[..n][i], walk[..n][i + 1]);
      WalkDescends(schema, models, order, walk[..n]);
    }
    var p := Position(order, walk[n - 1]);
    assert NeedsTable(schema, models, order[p], walk[n - 1 + 1]);
    var q :| 0 <= q < p && order[..p][q] == walk[n];
    PositionUnique(order, q);
  }

  lemma OrderedIsAcyclic(schema: Schema, models: seq<Table>, order: seq<Table>)
    requires NoDuplicates(order) && InOrder(schema, models, order)
    requires forall t :: t in Nodes(schema, models) ==> t in order
    ensures Acyclic(schema, models)
  {
    forall walk ensures !Cycle(schema, models, walk) {
      if Cycle(schema, models, walk) {
        assert NeedsTable(schema, models, walk[0], walk[0 + 1]);
        assert walk[0] in Nodes(schema, models);
        WalkDescends(schema, models, order, walk);
        assert false;
      }
    }
  }

  // ----- Sorting the models by their position -----

  /** The models sorted by position in the order: the order restricted to them. */
  function SortedBy(order: seq<Table>, models: seq<Table>): seq<Table> {
    if order == [] then []
    else
      var n := |order| - 1;
      SortedBy(order[..n], models) + (if order[n] in models then [order[n]] else [])
  }

  /** The i-th sorted model stands somewhere in the order, with the models before it sorted before it. */
  ghost predicate SortedAt(order: seq<Table>, models: seq<Table>, i: nat)
    requires i < |SortedBy(order, models)|
  {
    exists p :: 0 <= p < |order| && order[p] == SortedBy(order, models)[i]
      && SortedBy(order, models)[..i] == SortedBy(order[..p], models)
  }

  lemma {:induction false} SortedByMeans(order: seq<Table>, models: seq<Table>)
    requires NoDuplicates(order)
    ensures NoDuplicates(SortedBy(order, models))
    ensures forall t :: t in SortedBy(order, models) <==> t in order && t in models
    ensures forall i :: 0 <= i < |SortedBy(order, models)| ==> SortedAt(order, models, i)
  {
    if order != [] {
      var n := |order| - 1;
      SortedByMeans(order[..n], models);
      var init, all := SortedBy(order[..n], models), SortedBy(order, models);
      assert order == order[..n] + [order[n]];
      forall i | 0 <= i < |all| ensures SortedAt(order, models, i) {
        if i < |init| {
          assert SortedAt(order[..n], models, i);
          var p :| 0 <= p < |order[..n]| && order[..n][p] == init[i] && init[..i] == SortedBy(order[..n][..p], models);
          assert order[..n][..p] == order[..p] && all[..i] == init[..i];
        } else {
          assert all[..i] == init;
        }
      }
    }
  }

  /**
   * The models of a migration, or None where the foreign keys between different tables form a
   * cycle: each mapped table reachable from the touched ones once, after all it references.
   */
  method FindModels(schema: Schema, touched: set<Table>) returns (models: Option<seq<Table>>, ghost found: seq<Table>)
    ensures NoDuplicates(found) && forall t :: t in found <==> t in schema && Reachable(schema, touched, t)
    ensures models.Some? <==> Acyclic(schema, found)
    ensures models.Some? ==>
      && NoDuplicates(models.value)
      && (forall t :: t in models.value <==> t in schema && Reachable(schema, touched, t))
      && (forall i, u :: 0 <= i < |models.value| && u in schema && u != models.value[i] ==>
            References(schema, models.value[i], u) ==> u in models.value[..i])
  {
    var collected := CollectModels(schema, touched);
    found := collected;
    var order := StaticOrder(schema, collected);
    if order.None? {
      return None, collected;
    }
    models := Some(SortedBy(order.value, collected));
    SortedByMeans(order.value, collected);
    forall i, u
      | 0 <= i < |models.value| && u in schema && u != models.value[i] && References(schema, models.value[i], u)
      ensures u in models.value[..i]
    {
      ReferencedFirst(schema, touched, collected, order.value, i, u);
    }
  }

  lemma ReferencedFirst(schema: Schema, touched: set<Table>, found: seq<Table>, order: seq<Table>, i: nat, u: Table)
    requires forall t :: t in found <==> t in schema && Reachable(schema, touched, t)
    requires NoDuplicates(order) && InOrder(schema, found, order)
    requires i < |SortedBy(order, found)| && u in schema && u != SortedBy(order, found)[i]
    requires References(schema, SortedBy(order, found)[i], u)
    ensures u in SortedBy(order, found)[..i]
  {
    var sorted := SortedBy(order, found);
    SortedByMeans(order, found);
    hide Reachable, NoDuplicates;
    assert sorted[i] in sorted;
    ReachNext(schema, touched, sorted[i], u);
    assert NeedsTable(schema, found, sorted[i], u);
    hide References, NeedsTable;
    assert SortedAt(order, found, i);
    var p :| 0 <= p < |order| && order[p] == sorted[i] && sorted[..i] == SortedBy(order[..p], found);
    assert u in order[..p];
    hide SortedBy, InOrder;
    PrefixDistinct(order, p);
    SortedByMeans(order[..p], found);
  }

  lemma PrefixDistinct(s: seq<Table>, n: nat)
    requires NoDuplicates(s) && n <= |s|
    ensures NoDuplicates(s[..n])
  {
  }
}
