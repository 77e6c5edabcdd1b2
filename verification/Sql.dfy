/**
 * A small SQL semantics over sequences of rows. A sequence is one order of a bag of rows; nothing
 * stated about a query depends on the order. NULL is None.
 */
module Sql {
  import opened Wrappers

  // ----- Operators -----

  function Select<T>(p: T -> bool, rows: seq<T>): seq<T> {
    if rows == [] then []
    else Select(p, rows[..|rows| - 1]) + (if p(rows[|rows| - 1]) then [rows[|rows| - 1]] else [])
  }

  function Project<A, B>(f: A -> B, rows: seq<A>): (r: seq<B>)
    ensures |r| == |rows| && forall i :: 0 <= i < |rows| ==> r[i] == f(rows[i])
  {
    seq(|rows|, i requires 0 <= i < |rows| => f(rows[i]))
  }

  function Distinct<T(==)>(rows: seq<T>): seq<T> {
    if rows == [] then []
    else
      var n := |rows| - 1;
      Distinct(rows[..n]) + (if rows[n] in rows[..n] then [] else [rows[n]])
  }

  function UnionDistinct<T(==)>(a: seq<T>, b: seq<T>): seq<T> {
    Distinct(a + b)
  }

  function Matching<A, B>(on: (A, B) -> bool, a: A, rs: seq<B>): seq<B> {
    if rs == [] then []
    else Matching(on, a, rs[..|rs| - 1]) + (if on(a, rs[|rs| - 1]) then [rs[|rs| - 1]] else [])
  }

  function InnerJoin<A, B>(on: (A, B) -> bool, ls: seq<A>, rs: seq<B>): seq<(A, B)> {
    if ls == [] then []
    else
      var n := |ls| - 1;
      InnerJoin(on, ls[..n], rs) + PairAll(ls[n], Matching(on, ls[n], rs))
  }

  function PairAll<A, B>(a: A, bs: seq<B>): seq<(A, B)> {
    seq(|bs|, i requires 0 <= i < |bs| => (a, bs[i]))
  }

  function LeftJoin<A, B>(on: (A, B) -> bool, ls: seq<A>, rs: seq<B>): seq<(A, Option<B>)> {
    if ls == [] then []
    else
      var n := |ls| - 1;
      LeftJoin(on, ls[..n], rs) + PairOrNull(ls[n], Matching(on, ls[n], rs))
  }

  function PairOrNull<A, B>(a: A, bs: seq<B>): seq<(A, Option<B>)> {
    if bs == [] then [(a, None)] else seq(|bs|, i requires 0 <= i < |bs| => (a, Some(bs[i])))
  }

  function GroupOf<T, K(==)>(key: T -> K, k: K, rows: seq<T>): seq<T> {
    if rows == [] then []
    else GroupOf(key, k, rows[..|rows| - 1]) + (if key(rows[|rows| - 1]) == k then [rows[|rows| - 1]] else [])
  }

  /** GROUP BY: one row a key, made of the key and its group. NULL keys form one group. */
  function GroupBy<T, K(==), R>(key: T -> K, aggregate: (K, seq<T>) -> R, rows: seq<T>): (r: seq<R>)
    ensures |r| == |Distinct(Project(key, rows))|
  {
    var keys := Distinct(Project(key, rows));
    seq(|keys|, i requires 0 <= i < |keys| => aggregate(keys[i], GroupOf(key, keys[i], rows)))
  }

  /** COUNT(DISTINCT x): NULL is not counted. */
  function CountDistinct<K(==)>(values: seq<Option<K>>): nat {
    |NonNull(values)|
  }

  function NonNull<K(==)>(values: seq<Option<K>>): set<Option<K>> {
    set v | v in values && v.Some?
  }

  /** COUNT(DISTINCT x) for a column that is never NULL. */
  function CountDistinctValues<K(==)>(values: seq<K>): nat {
    |set v | v in values|
  }

  function SumOf<T>(f: T -> int, rows: seq<T>): int {
    if rows == [] then 0 else SumOf(f, rows[..|rows| - 1]) + f(rows[|rows| - 1])
  }

  function CountIf<T>(p: T -> bool, rows: seq<T>): nat {
    if rows == [] then 0 else CountIf(p, rows[..|rows| - 1]) + (if p(rows[|rows| - 1]) then 1 else 0)
  }

  // ----- DISTINCT -----

  ghost predicate NoDuplicates<T(!new)>(rows: seq<T>) {
    forall i, j :: 0 <= i < j < |rows| ==> rows[i] != rows[j]
  }

  lemma {:induction false} DistinctMeans<T(!new)>(rows: seq<T>)
    ensures NoDuplicates(Distinct(rows))
    ensures forall x :: x in Distinct(rows) <==> x in rows
  {
    if rows != [] {
      var n := |rows| - 1;
      DistinctMeans(rows[..n]);
      assert rows == rows[..n] + [rows[n]];
    }
  }

  lemma {:induction false} SizeOfNoDuplicates<T(!new)>(rows: seq<T>)
    requires NoDuplicates(rows)
    ensures |set x | x in rows| == |rows|
  {
    if rows != [] {
      var n := |rows| - 1;
      SizeOfNoDuplicates(rows[..n]);
      assert rows == rows[..n] + [rows[n]];
      assert (set x | x in rows) == (set x | x in rows[..n]) + {rows[n]};
      assert forall i :: 0 <= i < n ==> rows[i] != rows[n];
    }
  }

  // ----- Joins onto a relation that has at most one match -----

  /** The row `a` matches at most one row of `rs`. */
  ghost predicate OneMatch<A(!new), B(!new)>(on: (A, B) -> bool, a: A, rs: seq<B>) {
    forall i, j :: 0 <= i < j < |rs| ==> !(on(a, rs[i]) && on(a, rs[j]))
  }

  function Lookup<A, B>(on: (A, B) -> bool, a: A, rs: seq<B>): Option<B> {
    if Matching(on, a, rs) == [] then None else Some(Matching(on, a, rs)[0])
  }

  predicate HasMatch<A, B>(on: (A, B) -> bool, a: A, rs: seq<B>) {
    Lookup(on, a, rs).Some?
  }

  lemma {:induction false} MatchingMeans<A(!new), B(!new)>(on: (A, B) -> bool, a: A, rs: seq<B>)
    ensures forall b :: b in Matching(on, a, rs) <==> b in rs && on(a, b)
    ensures OneMatch(on, a, rs) ==> |Matching(on, a, rs)| <= 1
  {
    if rs != [] {
      var n := |rs| - 1;
      MatchingMeans(on, a, rs[..n]);
      assert rs == rs[..n] + [rs[n]];
      var m := Matching(on, a, rs[..n]);
      assert m == [] || m[0] in m;
      assert OneMatch(on, a, rs) ==> OneMatch(on, a, rs[..n]);
      assert OneMatch(on, a, rs) && on(a, rs[n]) ==> forall b :: b in rs[..n] ==> !on(a, b);
    }
  }

  lemma {:induction false} SeveralMatches<A(!new), B(!new)>(on: (A, B) -> bool, a: A, rs: seq<B>)
    requires !OneMatch(on, a, rs)
    ensures |Matching(on, a, rs)| >= 2
  {
    var n := |rs| - 1;
    if !OneMatch(on, a, rs[..n]) {
      SeveralMatches(on, a, rs[..n]);
    } else {
      assert forall i :: 0 <= i < n ==> rs[..n][i] == rs[i];
      var i, j :| 0 <= i < j < |rs| && on(a, rs[i]) && on(a, rs[j]);
      assert j == n;
      MatchingMeans(on, a, rs[..n]);
      assert rs[i] in rs[..n];
      assert rs[i] in Matching(on, a, rs[..n]);
    }
  }

  /** What a lookup finds: some match, and nothing only if there is none. */
  lemma LookupMeans<A(!new), B(!new)>(on: (A, B) -> bool, a: A, rs: seq<B>)
    ensures Lookup(on, a, rs).Some? <==> exists b :: b in rs && on(a, b)
    ensures Lookup(on, a, rs).Some? ==> Lookup(on, a, rs).value in rs && on(a, Lookup(on, a, rs).value)
  {
    MatchingMeans(on, a, rs);
    var m := Matching(on, a, rs);
    assert m == [] || m[0] in m;
    assert m == [] ==> forall b :: b in rs ==> !on(a, b);
  }

  /** Paired with its matches, a row with at most one match gives what its lookup says. */
  lemma PairedOnce<A(!new), B(!new)>(on: (A, B) -> bool, a: A, rs: seq<B>)
    requires OneMatch(on, a, rs)
    ensures PairOrNull(a, Matching(on, a, rs)) == [(a, Lookup(on, a, rs))]
    ensures PairAll(a, Matching(on, a, rs)) == if HasMatch(on, a, rs) then [(a, Lookup(on, a, rs).value)] else []
  {
    MatchingMeans(on, a, rs);
  }

  /** A left join onto a relation with at most one match keeps the left side row for row. */
  lemma {:induction false} LeftJoinRowForRow<A(!new), B(!new)>(on: (A, B) -> bool, ls: seq<A>, rs: seq<B>)
    requires forall a :: a in ls ==> OneMatch(on, a, rs)
    ensures |LeftJoin(on, ls, rs)| == |ls|
    ensures forall i :: 0 <= i < |ls| ==> LeftJoin(on, ls, rs)[i] == (ls[i], Lookup(on, ls[i], rs))
  {
    hide OneMatch, Matching, Lookup, PairOrNull, PairAll;
    if ls != [] {
      var n := |ls| - 1;
      LeftJoinRowForRow(on, ls[..n], rs);
      assert ls[n] in ls;
      PairedOnce(on, ls[n], rs);
    }
  }

  /** A left join never loses a row, and duplicates none exactly when every row has at most one match. */
  lemma {:induction false} LeftJoinLength<A(!new), B(!new)>(on: (A, B) -> bool, ls: seq<A>, rs: seq<B>)
    ensures |LeftJoin(on, ls, rs)| >= |ls|
    ensures |LeftJoin(on, ls, rs)| == |ls| <==> forall a :: a in ls ==> OneMatch(on, a, rs)
  {
    hide OneMatch, Matching;
    if ls != [] {
      var n := |ls| - 1;
      LeftJoinLength(on, ls[..n], rs);
      assert forall a :: a in ls <==> a in ls[..n] || a == ls[n];
      if OneMatch(on, ls[n], rs) {
        PairedOnce(on, ls[n], rs);
      } else {
        SeveralMatches(on, ls[n], rs);
      }
    }
  }

  lemma SelectPairs<A(!new), B(!new)>(p: A -> bool, q: ((A, Option<B>)) -> bool, a: A, bs: seq<B>)
    requires forall b: Option<B> :: q((a, b)) == p(a)
    ensures Select(q, PairOrNull(a, bs)) == if p(a) then PairOrNull(a, bs) else []
  {
    hide Select;
    var pairs := PairOrNull(a, bs);
    forall i | 0 <= i < |pairs| ensures q(pairs[i]) == p(a) {
      assert pairs[i] == (a, pairs[i].1);
    }
    SelectAll(q, pairs, p(a));
  }

  lemma SelectOne<A>(p: A -> bool, ls: seq<A>, a: A)
    ensures Select(p, ls + [a]) == if p(a) then Select(p, ls) + [a] else Select(p, ls)
  {
    assert (ls + [a])[..|ls|] == ls;
  }

  lemma SelectLeftJoinStep<A(!new), B(!new)>(p: A -> bool, q: ((A, Option<B>)) -> bool,
                                           on: (A, B) -> bool, ls: seq<A>, a: A, rs: seq<B>)
    requires Select(q, LeftJoin(on, ls, rs)) == LeftJoin(on, Select(p, ls), rs)
    requires forall b: Option<B> :: q((a, b)) == p(a)
    ensures Select(q, LeftJoin(on, ls + [a], rs)) == LeftJoin(on, Select(p, ls + [a]), rs)
  {
    hide *;
    LeftJoinOneMore(on, ls, a, rs);
    SelectAppend(q, LeftJoin(on, ls, rs), PairOrNull(a, Matching(on, a, rs)));
    SelectPairs(p, q, a, Matching(on, a, rs));
    SelectOne(p, ls, a);
    LeftJoinOneMore(on, Select(p, ls), a, rs);
  }

  lemma SelectOfNothing<A, B>(p: A -> bool, q: ((A, Option<B>)) -> bool, on: (A, B) -> bool, rs: seq<B>)
    ensures Select(q, LeftJoin(on, [], rs)) == LeftJoin(on, Select(p, []), rs)
  {
  }

  /** A condition on the left side alone can be tested before a left join. */
  lemma {:induction false} SelectLeftJoin<A(!new), B(!new)>(p: A -> bool, q: ((A, Option<B>)) -> bool,
                                                         on: (A, B) -> bool, ls: seq<A>, rs: seq<B>)
    requires forall a, b :: q((a, b)) == p(a)
    ensures Select(q, LeftJoin(on, ls, rs)) == LeftJoin(on, Select(p, ls), rs)
  {
    hide *;
    if ls == [] {
      SelectOfNothing(p, q, on, rs);
    } else {
      var n := |ls| - 1;
      SelectLeftJoin(p, q, on, ls[..n], rs);
      assert ls == ls[..n] + [ls[n]];
      SelectLeftJoinStep(p, q, on, ls[..n], ls[n], rs);
    }
  }

  lemma LeftJoinOneMore<A(!new), B(!new)>(on: (A, B) -> bool, ls: seq<A>, a: A, rs: seq<B>)
    ensures LeftJoin(on, ls + [a], rs) == LeftJoin(on, ls, rs) + PairOrNull(a, Matching(on, a, rs))
  {
    assert (ls + [a])[..|ls|] == ls;
  }

  lemma {:induction false} SelectAppend<T>(p: T -> bool, a: seq<T>, b: seq<T>)
    ensures Select(p, a + b) == Select(p, a) + Select(p, b)
  {
    if b == [] {
      assert a + b == a;
    } else {
      SelectAppend(p, a, b[..|b| - 1]);
      assert (a + b)[..|a + b| - 1] == a + b[..|b| - 1];
    }
  }

  lemma {:induction false} SelectAll<T>(p: T -> bool, rows: seq<T>, all: bool)
    requires forall i :: 0 <= i < |rows| ==> p(rows[i]) == all
    ensures Select(p, rows) == if all then rows else []
  {
    if rows != [] {
      SelectAll(p, rows[..|rows| - 1], all);
      assert rows == rows[..|rows| - 1] + [rows[|rows| - 1]];
    }
  }

  /** An inner join onto such a relation drops the rows without a match and duplicates none. */
  lemma {:induction false} InnerJoinSelects<A(!new), B(!new)>(on: (A, B) -> bool, ls: seq<A>, rs: seq<B>)
    requires forall a :: a in ls ==> OneMatch(on, a, rs)
    ensures InnerJoin(on, ls, rs) == Matched(on, ls, rs)
  {
    hide OneMatch, Matching, Lookup, PairOrNull, PairAll;
    if ls != [] {
      var n := |ls| - 1;
      InnerJoinSelects(on, ls[..n], rs);
      assert ls[n] in ls;
      PairedOnce(on, ls[n], rs);
    }
  }

  function Matched<A, B>(on: (A, B) -> bool, ls: seq<A>, rs: seq<B>): seq<(A, B)> {
    if ls == [] then []
    else
      var n := |ls| - 1;
      Matched(on, ls[..n], rs)
      + (if HasMatch(on, ls[n], rs) then [(ls[n], Lookup(on, ls[n], rs).value)] else [])
  }

  lemma {:induction false} MatchedRowForRow<A(!new), B(!new)>(on: (A, B) -> bool, ls: seq<A>, rs: seq<B>)
    requires forall i :: 0 <= i < |ls| ==> HasMatch(on, ls[i], rs)
    ensures |Matched(on, ls, rs)| == |ls|
    ensures forall i :: 0 <= i < |ls| ==>
      HasMatch(on, ls[i], rs) && Matched(on, ls, rs)[i] == (ls[i], Lookup(on, ls[i], rs).value)
  {
    hide Matching, Lookup;
    if ls != [] {
      var n := |ls| - 1;
      MatchedRowForRow(on, ls[..n], rs);
    }
  }

  /** If every row has its match, the inner join too keeps the left side row for row. */
  lemma InnerJoinRowForRow<A(!new), B(!new)>(on: (A, B) -> bool, ls: seq<A>, rs: seq<B>)
    requires forall a :: a in ls ==> OneMatch(on, a, rs) && HasMatch(on, a, rs)
    ensures |InnerJoin(on, ls, rs)| == |ls|
    ensures forall i :: 0 <= i < |ls| ==>
      HasMatch(on, ls[i], rs) && InnerJoin(on, ls, rs)[i] == (ls[i], Lookup(on, ls[i], rs).value)
  {
    InnerJoinSelects(on, ls, rs);
    MatchedRowForRow(on, ls, rs);
  }

  lemma {:induction false} JoinMembers<A(!new), B(!new)>(on: (A, B) -> bool, ls: seq<A>, rs: seq<B>)
    ensures forall p :: p in InnerJoin(on, ls, rs) <==> p.0 in ls && p.1 in rs && on(p.0, p.1)
  {
    if ls != [] {
      var n := |ls| - 1;
      JoinMembers(on, ls[..n], rs);
      MatchingMeans(on, ls[n], rs);
      var m := Matching(on, ls[n], rs);
      assert ls == ls[..n] + [ls[n]];
      forall p ensures p in PairAll(ls[n], m) <==> p.0 == ls[n] && p.1 in m {
        if p.0 == ls[n] && p.1 in m {
          var i :| 0 <= i < |m| && m[i] == p.1;
          assert PairAll(ls[n], m)[i] == p;
        }
      }
    }
  }

  /** A left join has every matching pair, and a row alone exactly if nothing matches it. */
  lemma {:induction false} LeftJoinMembers<A(!new), B(!new)>(on: (A, B) -> bool, ls: seq<A>, rs: seq<B>)
    ensures forall p :: p in LeftJoin(on, ls, rs) <==>
      && p.0 in ls
      && if p.1.Some? then p.1.value in rs && on(p.0, p.1.value) else forall b :: b in rs ==> !on(p.0, b)
  {
    if ls != [] {
      var n := |ls| - 1;
      LeftJoinMembers(on, ls[..n], rs);
      MatchingMeans(on, ls[n], rs);
      var m := Matching(on, ls[n], rs);
      assert ls == ls[..n] + [ls[n]];
      hide Matching;
      PairOrNullMembers(ls[n], m);
      assert m == [] <==> forall b :: b !in m by { assert m != [] ==> m[0] in m; }
    }
  }

  lemma PairOrNullMembers<A(!new), B(!new)>(a: A, bs: seq<B>)
    ensures forall p :: p in PairOrNull(a, bs) <==> p.0 == a && if p.1.Some? then p.1.value in bs else bs == []
  {
    forall p: (A, Option<B>) | p.0 == a && p.1.Some? && p.1.value in bs ensures p in PairOrNull(a, bs) {
      var i :| 0 <= i < |bs| && bs[i] == p.1.value;
      assert PairOrNull(a, bs)[i] == p;
    }
  }

  lemma {:induction false} MatchedMembers<A(!new), B(!new)>(on: (A, B) -> bool, ls: seq<A>, rs: seq<B>)
    ensures forall p :: p in Matched(on, ls, rs) <==>
      p.0 in ls && HasMatch(on, p.0, rs) && p.1 == Lookup(on, p.0, rs).value
  {
    if ls != [] {
      var n := |ls| - 1;
      MatchedMembers(on, ls[..n], rs);
      assert ls == ls[..n] + [ls[n]];
    }
  }

  /** Dropping rows without a match keeps the rows' keys distinct. */
  lemma {:induction false} MatchedKeepsDistinct<A(!new), B(!new), K(!new)>(
    on: (A, B) -> bool, ls: seq<A>, rs: seq<B>, key: A -> K, key': ((A, B)) -> K)
    requires NoDuplicates(Project(key, ls)) && forall p :: key'(p) == key(p.0)
    ensures NoDuplicates(Project(key', Matched(on, ls, rs)))
  {
    if ls != [] {
      var n := |ls| - 1;
      assert Project(key, ls[..n]) == Project(key, ls)[..n];
      MatchedKeepsDistinct(on, ls[..n], rs, key, key');
      MatchedMembers(on, ls[..n], rs);
      var m := Matched(on, ls[..n], rs);
      forall i | 0 <= i < |m| ensures key'(m[i]) != key(ls[n]) {
        assert m[i] in m;
        var j :| 0 <= j < n && ls[..n][j] == m[i].0;
        assert Project(key, ls)[j] != Project(key, ls)[n];
      }
    }
  }

  // ----- GROUP BY -----

  lemma {:induction false} GroupOfMeans<T(!new), K(!new)>(key: T -> K, k: K, rows: seq<T>)
    ensures forall x :: x in GroupOf(key, k, rows) <==> x in rows && key(x) == k
  {
    if rows != [] {
      var n := |rows| - 1;
      GroupOfMeans(key, k, rows[..n]);
      assert rows == rows[..n] + [rows[n]];
    }
  }

  /** A grouped relation has at most one row a key, and the row for a key aggregates its group. */
  lemma GroupByLookup<A(!new), T(!new), K(!new), R(!new)>(on: (A, R) -> bool, a: A, k: K, key: T -> K,
      aggregate: (K, seq<T>) -> R, rows: seq<T>)
    requires forall k', group :: on(a, aggregate(k', group)) <==> k' == k
    ensures OneMatch(on, a, GroupBy(key, aggregate, rows))
    ensures Lookup(on, a, GroupBy(key, aggregate, rows))
         == if exists x :: x in rows && key(x) == k then Some(aggregate(k, GroupOf(key, k, rows))) else None
  {
    var keys := Distinct(Project(key, rows));
    var grouped := GroupBy(key, aggregate, rows);
    DistinctMeans(Project(key, rows));
    assert forall i :: 0 <= i < |keys| ==> grouped[i] == aggregate(keys[i], GroupOf(key, keys[i], rows));
    LookupMeans(on, a, grouped);
    ProjectMembers(key, rows, k);
    if k in keys {
      var i :| 0 <= i < |keys| && keys[i] == k;
      assert on(a, grouped[i]);
      assert grouped[i] in grouped;
    }
  }

  lemma ProjectMembers<A(!new), B(!new)>(f: A -> B, rows: seq<A>, y: B)
    ensures y in Project(f, rows) <==> exists x :: x in rows && f(x) == y
  {
    if y in Project(f, rows) {
      var p :| 0 <= p < |rows| && Project(f, rows)[p] == y;
      assert rows[p] in rows;
    }
    if exists x :: x in rows && f(x) == y {
      var p :| 0 <= p < |rows| && f(rows[p]) == y;
      assert Project(f, rows)[p] == y;
    }
  }

  // ----- Sums and counts -----

  lemma {:induction false} SumOfProject<A, B>(f: B -> int, g: A -> B, h: A -> int, rows: seq<A>)
    requires forall i :: 0 <= i < |rows| ==> h(rows[i]) == f(g(rows[i]))
    ensures SumOf(f, Project(g, rows)) == SumOf(h, rows)
  {
    if rows != [] {
      var n := |rows| - 1;
      SumOfProject(f, g, h, rows[..n]);
      assert Project(g, rows)[..n] == Project(g, rows[..n]);
    }
  }

  /** The sum of a column over one relation is a count over another, row for row. */
  lemma {:induction false} SumIsCount<A, B>(f: A -> int, xs: seq<A>, p: B -> bool, ys: seq<B>)
    requires |xs| == |ys| && forall i :: 0 <= i < |xs| ==> f(xs[i]) == (if p(ys[i]) then 1 else 0)
    ensures SumOf(f, xs) == CountIf(p, ys)
  {
    if xs != [] {
      SumIsCount(f, xs[..|xs| - 1], p, ys[..|ys| - 1]);
    }
  }

  lemma {:induction false} SelectMeans<T(!new)>(p: T -> bool, rows: seq<T>)
    ensures forall x :: x in Select(p, rows) <==> x in rows && p(x)
  {
    if rows != [] {
      SelectMeans(p, rows[..|rows| - 1]);
      assert rows == rows[..|rows| - 1] + [rows[|rows| - 1]];
    }
  }

  lemma {:induction false} SelectKeepsDistinct<T(!new), K(!new)>(p: T -> bool, rows: seq<T>, key: T -> K)
    requires NoDuplicates(Project(key, rows))
    ensures NoDuplicates(Project(key, Select(p, rows)))
  {
    if rows != [] {
      var n := |rows| - 1;
      assert Project(key, rows[..n]) == Project(key, rows)[..n];
      SelectKeepsDistinct(p, rows[..n], key);
      SelectMeans(p, rows[..n]);
      var kept := Select(p, rows[..n]);
      forall i | 0 <= i < |kept| ensures key(kept[i]) != key(rows[n]) {
        assert kept[i] in kept;
        var j :| 0 <= j < n && rows[..n][j] == kept[i];
        assert Project(key, rows)[j] != Project(key, rows)[n];
      }
    }
  }
}
