/**
 * Column naming of a result set (superset/superset/result_set.py): empty names in the cursor
 * description get synthetic ones, then repeated names get a counter.
 */
module ColumnNames {
  import opened Decimal
  import opened Sets

  function Synthetic(index: nat): string {
    "_col_" + Str(index)
  }

  ghost predicate AllDistinct(names: seq<string>) {
    forall i, j :: 0 <= i < j < |names| ==> names[i] != names[j]
  }

  function Elements(names: seq<string>): (s: set<string>)
    ensures |s| <= |names|
    ensures forall n :: n in s <==> n in names
  {
    if names == [] then {} else Elements(names[..|names| - 1]) + {names[|names| - 1]}
  }

  // ----- Pigeonhole: the first n synthetic names are n names -----

  function FirstSynthetics(n: nat): (s: set<string>)
    ensures forall k: nat :: k < n ==> Synthetic(k) in s
  {
    if n == 0 then {} else FirstSynthetics(n - 1) + {Synthetic(n - 1)}
  }

  lemma {:induction false} FirstSyntheticsSize(n: nat)
    ensures |FirstSynthetics(n)| == n
    ensures forall name :: name in FirstSynthetics(n) ==> exists k: nat :: k < n && name == Synthetic(k)
  {
    hide Synthetic;
    if n > 0 {
      FirstSyntheticsSize(n - 1);
      forall k: nat | k < n - 1 ensures Synthetic(k) != Synthetic(n - 1) {
        SyntheticInjective(k, n - 1);
      }
    }
  }

  lemma SyntheticInjective(i: nat, j: nat)
    ensures Synthetic(i) == Synthetic(j) ==> i == j
  {
    if Synthetic(i) == Synthetic(j) {
      assert Synthetic(i)[5..] == Str(i);
      assert Synthetic(j)[5..] == Str(j);
      StrInjective(i, j);
    }
  }

  /** If the first n synthetic names are all taken, at least n names are taken. */
  lemma Pigeonhole(n: nat, taken: set<string>)
    requires forall k: nat :: k < n ==> Synthetic(k) in taken
    ensures n <= |taken|
  {
    FirstSyntheticsSize(n);
    SubsetSize(FirstSynthetics(n), taken);
  }

  // ----- Synthetic names -----

  /**
   * `names` is `columns` with each empty entry i replaced by `Synthetic(picked[i])`, the first
   * synthetic name that is neither an explicit name nor used earlier in the list.
   */
  ghost predicate NormalizedBy(columns: seq<string>, names: seq<string>, picked: seq<nat>) {
    && |names| == |picked| <= |columns|
    && forall i :: 0 <= i < |names| ==> NameAt(columns, names, picked, i)
  }

  ghost predicate NameAt(columns: seq<string>, names: seq<string>, picked: seq<nat>, i: nat)
    requires i < |names| == |picked| <= |columns|
  {
    if columns[i] != "" then
      names[i] == columns[i]
    else
      && names[i] == Synthetic(picked[i])
      && names[i] !in columns && names[i] !in names[..i]
      && forall k: nat :: k < picked[i] ==> Synthetic(k) in columns || Synthetic(k) in names[..i]
  }

  ghost predicate Normalized(columns: seq<string>, names: seq<string>) {
    |names| == |columns| && exists picked :: NormalizedBy(columns, names, picked)
  }

  method NormalizeCursorDescriptionNames(columns: seq<string>) returns (names: seq<string>, ghost picked: seq<nat>)
    ensures |names| == |columns| && NormalizedBy(columns, names, picked)
    ensures Normalized(columns, names)
  {
    names, picked := [], [];
    var unavailable := set c | c in columns && c != "";
    ghost var explicit := unavailable;
    var index := 0;
    for i := 0 to |columns|
      invariant |names| == i && NormalizedBy(columns, names, picked)
      invariant forall n :: n in unavailable <==> n in explicit || n in names
      invariant forall k: nat :: k < index ==> Synthetic(k) in unavailable
    {
      ghost var earlier := names;
      if columns[i] != "" {
        names, picked := names + [columns[i]], picked + [0];
      } else {
        while true
          invariant forall k: nat :: k < index ==> Synthetic(k) in unavailable
          decreases |unavailable| - index
        {
          Pigeonhole(index, unavailable);
          var synthetic := Synthetic(index);
          index := index + 1;
          if synthetic !in unavailable {
            unavailable := unavailable + {synthetic};
            names, picked := names + [synthetic], picked + [index - 1];
            break;
          }
        }
      }
      NormalizedStep(columns, earlier, picked[..i], names[i], picked[i]);
      assert names == earlier + [names[i]] && picked == picked[..i] + [picked[i]];
    }
  }

  lemma NormalizedStep(columns: seq<string>, names: seq<string>, picked: seq<nat>, name: string, pick: nat)
    requires NormalizedBy(columns, names, picked) && |names| < |columns|
    requires NameAt(columns, names + [name], picked + [pick], |names|)
    ensures NormalizedBy(columns, names + [name], picked + [pick])
  {
    forall i | 0 <= i < |names| ensures NameAt(columns, names + [name], picked + [pick], i) {
      assert NameAt(columns, names, picked, i);
      assert (names + [name])[..i] == names[..i];
    }
  }

  /** Every picked index is below the number of columns, so the running index never exceeds it. */
  lemma PickedBound(columns: seq<string>, names: seq<string>, picked: seq<nat>, i: nat)
    requires NormalizedBy(columns, names, picked) && |names| == |columns|
    requires i < |columns| && columns[i] == ""
    ensures picked[i] < |columns|
  {
    assert NameAt(columns, names, picked, i);
    forall k: nat | k < picked[i] + 1 ensures Synthetic(k) in Elements(names) {
      if k < picked[i] && Synthetic(k) in columns {
        var p :| 0 <= p < |columns| && columns[p] == Synthetic(k);
        assert NameAt(columns, names, picked, p);
      }
    }
    Pigeonhole(picked[i] + 1, Elements(names));
  }

  /** Synthetic names are pairwise distinct and disjoint from the explicit ones, which are kept. */
  lemma NormalizedProperties(columns: seq<string>, names: seq<string>)
    requires Normalized(columns, names)
    ensures forall i :: 0 <= i < |columns| && columns[i] != "" ==> names[i] == columns[i]
    ensures forall i :: 0 <= i < |columns| && columns[i] == "" ==> names[i] !in columns
    ensures forall i, j :: 0 <= i < j < |columns| && columns[i] == "" == columns[j] ==> names[i] != names[j]
    ensures "" !in names
  {
    var picked :| NormalizedBy(columns, names, picked);
    forall i | 0 <= i < |columns|
      ensures if columns[i] != "" then names[i] == columns[i] else names[i] !in columns && names[i] !in names[..i]
      ensures names[i] != ""
    {
      assert NameAt(columns, names, picked, i);
    }
    forall i, j | 0 <= i < j < |columns| && columns[j] == "" ensures names[i] != names[j] {
      assert names[..j][i] == names[i];
    }
  }

  /** The synthetic indices increase along the list. */
  lemma PickedIncreases(columns: seq<string>, names: seq<string>, picked: seq<nat>, i: nat, j: nat)
    requires NormalizedBy(columns, names, picked) && i < j < |names|
    requires columns[i] == "" == columns[j]
    ensures picked[i] < picked[j]
  {
    assert NameAt(columns, names, picked, i) && NameAt(columns, names, picked, j);
    assert names[..j][i] == names[i];
    assert names[..i] <= names[..j];
  }

  /** A description has one normalization: the relation determines the result of the loop. */
  lemma {:induction false} NormalizedUnique(columns: seq<string>, m: seq<string>, p: seq<nat>, n: seq<string>,
                                            q: seq<nat>)
    requires NormalizedBy(columns, m, p) && NormalizedBy(columns, n, q) && |m| == |n|
    ensures m == n
  {
    if m != [] {
      var i := |m| - 1;
      NormalizedPrefix(columns, m, p);
      NormalizedPrefix(columns, n, q);
      NormalizedUnique(columns, m[..i], p[..i], n[..i], q[..i]);
      assert NameAt(columns, m, p, i) && NameAt(columns, n, q, i);
      if columns[i] == "" {
        assert m[i] == Synthetic(p[i]) && n[i] == Synthetic(q[i]);
        assert p[i] == q[i];
      }
      assert m == m[..i] + [m[i]] && n == n[..i] + [n[i]];
    }
  }

  lemma NormalizedPrefix(columns: seq<string>, names: seq<string>, picked: seq<nat>)
    requires NormalizedBy(columns, names, picked) && names != []
    ensures NormalizedBy(columns, names[..|names| - 1], picked[..|names| - 1])
  {
    var n := |names| - 1;
    forall i | 0 <= i < n ensures NameAt(columns, names[..n], picked[..n], i) {
      assert NameAt(columns, names, picked, i);
      assert names[..n][..i] == names[..i];
    }
  }

  // ----- Counting duplicates -----

  function Count(names: seq<string>, name: string, key: string -> string): nat {
    if names == [] then 0
    else Count(names[..|names| - 1], name, key)
         + (if key(names[|names| - 1]) == key(name) then 1 else 0)
  }

  function Numbered(name: string, suffix: string, n: nat): string {
    if n == 0 then name else name + suffix + Str(n)
  }

  lemma NumberedMeans(name: string, suffix: string, n: nat)
    ensures n == 0 ==> Numbered(name, suffix, n) == name
    ensures n > 0 ==> Numbered(name, suffix, n) == name + suffix + Str(n)
  {
  }

  /** Each item with the number of earlier items of the same key appended, unless there is none. */
  function Deduped(l: seq<string>, suffix: string, key: string -> string): (r: seq<string>)
    ensures |r| == |l|
  {
    seq(|l|, i requires 0 <= i < |l| => Numbered(l[i], suffix, Count(l[..i], l[i], key)))
  }

  /** The case-sensitive key. */
  function Same(s: string): string {
    s
  }

  lemma NothingCounted(l: seq<string>, key: string -> string)
    ensures forall name :: Count(l[..0], name, key) == 0
  {
  }

  lemma CountNext(l: seq<string>, i: nat, key: string -> string)
    requires i < |l|
    ensures forall name ::
      Count(l[..i + 1], name, key) == Count(l[..i], name, key) + (if key(l[i]) == key(name) then 1 else 0)
  {
    assert l[..i + 1][..i] == l[..i];
  }

  /** `key` is the identity, or `lower` for the case-insensitive form. */
  method Dedup(l: seq<string>, suffix: string, key: string -> string) returns (newL: seq<string>)
    ensures newL == Deduped(l, suffix, key)
  {
    hide Count, Numbered;
    newL := [];
    var seen: map<string, nat> := map[];
    NothingCounted(l, key);
    for i := 0 to |l|
      invariant newL == Deduped(l, suffix, key)[..i]
      invariant forall name :: key(name) in seen <==> Count(l[..i], name, key) > 0
      invariant forall name :: key(name) in seen ==> seen[key(name)] + 1 == Count(l[..i], name, key)
    {
      var item := l[i];
      var fixedCase := key(item);
      CountNext(l, i, key);
      assert newL + [Numbered(item, suffix, Count(l[..i], item, key))] == Deduped(l, suffix, key)[..i + 1];
      if fixedCase in seen {
        seen := seen[fixedCase := seen[fixedCase] + 1];
        item := item + suffix + Str(seen[fixedCase]);
        assert item == Numbered(l[i], suffix, seen[fixedCase]) by { NumberedMeans(l[i], suffix, seen[fixedCase]); }
      } else {
        seen := seen[fixedCase := 0];
        NumberedMeans(l[i], suffix, 0);
      }
      newL := newL + [item];
    }
  }

  lemma {:induction false} CountPositive(names: seq<string>, name: string)
    ensures Count(names, name, Same) > 0 <==> name in names
  {
    if names != [] {
      CountPositive(names[..|names| - 1], name);
      assert names == names[..|names| - 1] + [names[|names| - 1]];
    }
  }

  lemma {:induction false} CountGrows(names: seq<string>, name: string, i: nat, j: nat, key: string -> string)
    requires i <= j <= |names|
    ensures Count(names[..i], name, key) <= Count(names[..j], name, key)
    ensures i < j && key(names[i]) == key(name) ==> Count(names[..i], name, key) < Count(names[..j], name, key)
  {
    if i < j {
      CountGrows(names, name, i, j - 1, key);
      assert names[..j][..j - 1] == names[..j - 1];
    }
  }

  /** The k-th repetition exists for every k below the count. */
  lemma {:induction false} Occurrence(names: seq<string>, name: string, k: nat) returns (i: nat)
    requires k < Count(names, name, Same)
    ensures i < |names| && names[i] == name && Count(names[..i], name, Same) == k
  {
    var n := |names| - 1;
    if k < Count(names[..n], name, Same) {
      i := Occurrence(names[..n], name, k);
      assert names[..n][..i] == names[..i];
    } else {
      i := n;
    }
  }

  /** No item is the numbered form that a repeated item takes. */
  ghost predicate NoNumberedClash(l: seq<string>, suffix: string) {
    forall name, k: nat :: name in l && 1 <= k < Count(l, name, Same) ==> name + suffix + Str(k) !in l
  }

  /** The suffix cannot be read as part of the numeral behind it; "__" is such a suffix. */
  predicate Separates(suffix: string) {
    suffix != "" && !IsDigit(suffix[|suffix| - 1])
  }

  lemma NumberedInjective(m: string, j: nat, n: string, k: nat, suffix: string)
    requires Separates(suffix) && j > 0 && k > 0
    ensures Numbered(m, suffix, j) == Numbered(n, suffix, k) ==> m == n && j == k
  {
    if Numbered(m, suffix, j) == Numbered(n, suffix, k) {
      SuffixNumeral(m + suffix, Str(j), n + suffix, Str(k));
      StrInjective(j, k);
      assert m == (m + suffix)[..|m + suffix| - |suffix|];
      assert n == (n + suffix)[..|n + suffix| - |suffix|];
    }
  }

  /** `dedup` returns distinct names exactly when no numbered form is itself in the list. */
  lemma DedupDistinct(l: seq<string>, suffix: string)
    requires Separates(suffix)
    ensures AllDistinct(Deduped(l, suffix, Same)) <==> NoNumberedClash(l, suffix)
  {
    var r := Deduped(l, suffix, Same);
    if NoNumberedClash(l, suffix) {
      forall i, j | 0 <= i < |l| && 0 <= j < |l| && i != j ensures r[i] != r[j] {
        NoClashAt(l, suffix, i, j);
      }
    } else {
      var name, k: nat :| name in l && 1 <= k < Count(l, name, Same) && name + suffix + Str(k) in l;
      CountPositive(l, name + suffix + Str(k));
      var i := Occurrence(l, name, k);
      var j := Occurrence(l, name + suffix + Str(k), 0);
      assert r[i] == r[j] && l[i] != l[j];
    }
  }

  lemma NoClashAt(l: seq<string>, suffix: string, i: nat, j: nat)
    requires Separates(suffix) && NoNumberedClash(l, suffix)
    requires i < |l| && j < |l| && i != j
    ensures Deduped(l, suffix, Same)[i] != Deduped(l, suffix, Same)[j]
  {
    var ci, cj := Count(l[..i], l[i], Same), Count(l[..j], l[j], Same);
    assert l[..|l|] == l;
    CountGrows(l, l[i], i, |l|, Same);
    CountGrows(l, l[j], j, |l|, Same);
    if l[i] == l[j] {
      CountGrows(l, l[i], if i < j then i else j, if i < j then j else i, Same);
    }
    if ci > 0 && cj > 0 {
      NumberedInjective(l[i], ci, l[j], cj, suffix);
    }
  }

  // ----- Any key, in particular the case-insensitive one -----

  /** No earlier item has the same key. */
  ghost predicate IsFirst(l: seq<string>, key: string -> string, i: nat)
    requires i < |l|
  {
    forall m :: 0 <= m < i ==> key(l[m]) != key(l[i])
  }

  /** No first item of its key is the numbered form that a later item of another key takes. */
  ghost predicate NoNumberedFirst(l: seq<string>, suffix: string, key: string -> string) {
    forall i, j :: 0 <= i < |l| && 0 <= j < |l| && IsFirst(l, key, i) && !IsFirst(l, key, j) ==>
      l[i] != l[j] + suffix + Str(Count(l[..j], l[j], key))
  }

  lemma {:induction false} CountsEarlier(names: seq<string>, name: string, key: string -> string)
    ensures Count(names, name, key) > 0 <==> exists m :: 0 <= m < |names| && key(names[m]) == key(name)
  {
    if names != [] {
      var n := |names| - 1;
      CountsEarlier(names[..n], name, key);
      assert forall m :: 0 <= m < n ==> names[..n][m] == names[m];
    }
  }

  lemma FirstCountsNone(l: seq<string>, key: string -> string, i: nat)
    requires i < |l|
    ensures IsFirst(l, key, i) <==> Count(l[..i], l[i], key) == 0
  {
    CountsEarlier(l[..i], l[i], key);
    assert forall m :: 0 <= m < i ==> l[..i][m] == l[m];
  }

  /** Two items get the same name only if one is first of its key and is the other's numbered form. */
  lemma SameNumbered(l: seq<string>, suffix: string, key: string -> string, i: nat, j: nat)
    requires Separates(suffix) && i < j < |l|
    ensures var ci, cj := Count(l[..i], l[i], key), Count(l[..j], l[j], key);
      Numbered(l[i], suffix, ci) == Numbered(l[j], suffix, cj) ==> (ci == 0) != (cj == 0)
  {
    hide Count, Numbered;
    var ci, cj := Count(l[..i], l[i], key), Count(l[..j], l[j], key);
    NumberedMeans(l[i], suffix, ci);
    NumberedMeans(l[j], suffix, cj);
    if ci > 0 && cj > 0 {
      NumberedInjective(l[i], ci, l[j], cj, suffix);
    }
    if l[i] == l[j] {
      CountGrows(l, l[j], i, j, key);
    }
  }

  /** For any key: distinct names exactly when no first item of its key is another's numbered form. */
  lemma DedupDistinctByKey(l: seq<string>, suffix: string, key: string -> string)
    requires Separates(suffix)
    ensures AllDistinct(Deduped(l, suffix, key)) <==> NoNumberedFirst(l, suffix, key)
  {
    hide Count, Numbered, IsFirst;
    var r := Deduped(l, suffix, key);
    forall i | 0 <= i < |l|
      ensures IsFirst(l, key, i) ==> r[i] == l[i]
      ensures !IsFirst(l, key, i) ==> r[i] == l[i] + suffix + Str(Count(l[..i], l[i], key))
    {
      FirstCountsNone(l, key, i);
      NumberedMeans(l[i], suffix, Count(l[..i], l[i], key));
    }
    if NoNumberedFirst(l, suffix, key) {
      forall i, j | 0 <= i < j < |l| ensures r[i] != r[j] {
        SameNumbered(l, suffix, key, i, j);
        FirstCountsNone(l, key, i);
        FirstCountsNone(l, key, j);
      }
    } else {
      var i, j :| 0 <= i < |l| && 0 <= j < |l| && IsFirst(l, key, i) && !IsFirst(l, key, j)
        && l[i] == l[j] + suffix + Str(Count(l[..j], l[j], key));
      assert i != j && r[i] == r[j];
    }
  }

  lemma {:induction false} DistinctCounts(l: seq<string>, i: nat)
    requires AllDistinct(l) && i < |l|
    ensures Count(l[..i], l[i], Same) == 0
  {
    CountPositive(l[..i], l[i]);
  }

  /** Distinct names are left alone, and nothing else is. */
  lemma DedupFixpoint(l: seq<string>, suffix: string)
    requires Separates(suffix)
    ensures Deduped(l, suffix, Same) == l <==> AllDistinct(l)
  {
    var r := Deduped(l, suffix, Same);
    if AllDistinct(l) {
      forall i | 0 <= i < |l| ensures r[i] == l[i] {
        DistinctCounts(l, i);
      }
    } else {
      var i, j :| 0 <= i < j < |l| && l[i] == l[j];
      CountPositive(l[..j], l[j]);
      assert l[..j][i] == l[j];
      assert r[j] != l[j];
    }
  }

  /** A second pass changes nothing exactly when the first one already made the names distinct. */
  lemma DedupIdempotent(l: seq<string>, suffix: string)
    requires Separates(suffix)
    ensures Deduped(Deduped(l, suffix, Same), suffix, Same) == Deduped(l, suffix, Same) <==> NoNumberedClash(l, suffix)
  {
    DedupFixpoint(Deduped(l, suffix, Same), suffix);
    DedupDistinct(l, suffix);
  }

  /** The documented guarantee "always returns unique values" fails on this list. */
  lemma DedupNotAlwaysUnique()
    ensures Deduped(["foo", "foo", "foo__1"], "__", Same)[1] == Deduped(["foo", "foo", "foo__1"], "__", Same)[2]
  {
    var l := ["foo", "foo", "foo__1"];
    assert l[..1] == ["foo"] && l[..2] == ["foo", "foo"];
    assert ["foo"][..0] == [] && ["foo", "foo"][..1] == ["foo"];
    assert Str(1) == "1";
  }

  // ----- The composition used for a result set -----

  lemma SyntheticNotNumbered(index: nat, name: string, k: nat)
    ensures Synthetic(index) != name + "__" + Str(k)
  {
    assert (name + "__")[|name|] == '_';
    assert "_col_"[3] == 'l';
    if Synthetic(index) == name + "__" + Str(k) {
      SuffixNumeral("_col_", Str(index), name + "__", Str(k));
      assert false;
    }
  }

  lemma {:induction false} NormalizedCount(columns: seq<string>, names: seq<string>, name: string, n: nat)
    requires Normalized(columns, names) && name in columns && name != "" && n <= |columns|
    ensures Count(names[..n], name, Same) == Count(columns[..n], name, Same)
  {
    if n > 0 {
      NormalizedProperties(columns, names);
      NormalizedCount(columns, names, name, n - 1);
      assert names[..n][..n - 1] == names[..n - 1] && columns[..n][..n - 1] == columns[..n - 1];
    }
  }

  lemma SyntheticCount(columns: seq<string>, names: seq<string>, name: string)
    requires Normalized(columns, names) && name in names && name !in columns
    ensures Count(names, name, Same) <= 1
  {
    NormalizedProperties(columns, names);
    if Count(names, name, Same) > 1 {
      var i := Occurrence(names, name, 0);
      var j := Occurrence(names, name, 1);
      assert false;
    }
  }

  /** The explicit names alone decide whether the final column names are distinct. */
  ghost predicate NoExplicitClash(columns: seq<string>) {
    forall name, k: nat ::
      name in columns && name != "" && 1 <= k < Count(columns, name, Same) ==> name + "__" + Str(k) !in columns
  }

  lemma FinalNamesDistinct(columns: seq<string>, names: seq<string>)
    requires Normalized(columns, names)
    ensures AllDistinct(Deduped(names, "__", Same)) <==> NoExplicitClash(columns)
  {
    NormalizedProperties(columns, names);
    var picked :| NormalizedBy(columns, names, picked);
    assert names[..|names|] == names && columns[..|columns|] == columns;
    forall name, k: nat | k >= 1
      ensures name in names && k < Count(names, name, Same) && name + "__" + Str(k) in names
         <==> name in columns && name != "" && k < Count(columns, name, Same) && name + "__" + Str(k) in columns
    {
      ClashIsExplicit(columns, names, picked, name, k);
    }
    DedupDistinct(names, "__");
  }

  lemma ClashIsExplicit(columns: seq<string>, names: seq<string>, picked: seq<nat>, name: string, k: nat)
    requires Normalized(columns, names) && NormalizedBy(columns, names, picked) && k >= 1
    ensures name in names && k < Count(names, name, Same) && name + "__" + Str(k) in names
       <==> name in columns && name != "" && k < Count(columns, name, Same) && name + "__" + Str(k) in columns
  {
    NormalizedProperties(columns, names);
    assert names[..|names|] == names && columns[..|columns|] == columns;
    var numbered := name + "__" + Str(k);
    if numbered in names {
      var p :| 0 <= p < |names| && names[p] == numbered;
      assert NameAt(columns, names, picked, p);
      SyntheticNotNumbered(picked[p], name, k);
      assert numbered in columns;
    }
    if name in columns && name != "" {
      NormalizedCount(columns, names, name, |columns|);
      ExplicitKept(columns, names, name);
    } else if name in names {
      SyntheticCount(columns, names, name);
    }
    if numbered in columns {
      ExplicitKept(columns, names, numbered);
    }
  }

  lemma ExplicitKept(columns: seq<string>, names: seq<string>, name: string)
    requires Normalized(columns, names) && name in columns && name != ""
    ensures name in names
  {
    NormalizedProperties(columns, names);
    var p :| 0 <= p < |columns| && columns[p] == name;
    assert names[p] == name;
  }

  /** In particular: if no explicit name is another one followed by "__" and a positive numeral. */
  lemma FinalNamesDistinctIfNoSuffix(columns: seq<string>, names: seq<string>)
    requires Normalized(columns, names)
    requires forall a, b, k: nat :: a in columns && b in columns && a != "" && k >= 1 ==> b != a + "__" + Str(k)
    ensures AllDistinct(Deduped(names, "__", Same))
    ensures Deduped(Deduped(names, "__", Same), "__", Same) == Deduped(names, "__", Same)
  {
    FinalNamesDistinct(columns, names);
    DedupFixpoint(Deduped(names, "__", Same), "__");
  }

  lemma {:induction false} CountIsMultiplicity(names: seq<string>, name: string)
    ensures Count(names, name, Same) == multiset(names)[name]
  {
    if names != [] {
      var n := |names| - 1;
      CountIsMultiplicity(names[..n], name);
      assert names == names[..n] + [names[n]];
    }
  }

  /** The i-th final name of a named column: numbered from its second occurrence on. */
  predicate ExplicitFinal(columns: seq<string>, names: seq<string>, i: nat)
    requires i < |columns| == |names|
  {
    var earlier := multiset(columns[..i])[columns[i]];
    names[i] == if earlier == 0 then columns[i] else columns[i] + "__" + Str(earlier)
  }

  /**
   * The i-th final name of a nameless column: "_col_" and the first index that no explicit name
   * and no earlier nameless column has taken.
   */
  ghost predicate SyntheticFinal(columns: seq<string>, names: seq<string>, picked: seq<nat>, i: nat)
    requires i < |columns| == |names| == |picked|
  {
    && names[i] == "_col_" + Str(picked[i]) && names[i] !in columns
    && (forall j :: 0 <= j < i && columns[j] == "" ==> picked[j] < picked[i])
    && (forall k: nat :: k < picked[i] ==> IndexTaken(columns, picked, i, k))
  }

  ghost predicate IndexTaken(columns: seq<string>, picked: seq<nat>, i: nat, k: nat)
    requires i < |columns| == |picked|
  {
    "_col_" + Str(k) in columns || exists j :: 0 <= j < i && columns[j] == "" && picked[j] == k
  }

  lemma ExplicitNamesFinal(columns: seq<string>, normalized: seq<string>, i: nat)
    requires Normalized(columns, normalized) && i < |columns| && columns[i] != ""
    ensures ExplicitFinal(columns, Deduped(normalized, "__", Same), i)
  {
    NormalizedProperties(columns, normalized);
    NormalizedCount(columns, normalized, columns[i], i);
    CountIsMultiplicity(columns[..i], columns[i]);
    NumberedMeans(columns[i], "__", Count(columns[..i], columns[i], Same));
  }

  lemma SyntheticNamesFinal(columns: seq<string>, normalized: seq<string>, picked: seq<nat>, i: nat)
    requires NormalizedBy(columns, normalized, picked) && |normalized| == |columns|
    requires i < |columns| && columns[i] == ""
    ensures SyntheticFinal(columns, Deduped(normalized, "__", Same), picked, i)
  {
    assert NameAt(columns, normalized, picked, i);
    CountPositive(normalized[..i], normalized[i]);
    NumberedMeans(normalized[i], "__", 0);
    forall j | 0 <= j < i && columns[j] == "" ensures picked[j] < picked[i] {
      PickedIncreases(columns, normalized, picked, j, i);
    }
    forall k: nat | k < picked[i] ensures IndexTaken(columns, picked, i, k) {
      if Synthetic(k) !in columns {
        var j :| 0 <= j < i && normalized[j] == Synthetic(k);
        assert NameAt(columns, normalized, picked, j);
        SyntheticInjective(picked[j], k);
      }
    }
  }

  /** The column names a result set gets for a cursor description, one by one. */
  method ColumnNamesOf(columns: seq<string>) returns (names: seq<string>, ghost picked: seq<nat>)
    ensures |names| == |columns| == |picked|
    ensures AllDistinct(names) <==> NoExplicitClash(columns)
    ensures forall i :: 0 <= i < |columns| ==>
      if columns[i] != "" then ExplicitFinal(columns, names, i) else SyntheticFinal(columns, names, picked, i)
  {
    var normalized;
    normalized, picked := NormalizeCursorDescriptionNames(columns);
    names := Dedup(normalized, "__", Same);
    FinalNamesDistinct(columns, normalized);
    hide *;
    forall i | 0 <= i < |columns|
      ensures if columns[i] != "" then ExplicitFinal(columns, names, i) else SyntheticFinal(columns, names, picked, i)
    {
      if columns[i] != "" {
        ExplicitNamesFinal(columns, normalized, i);
      } else {
        SyntheticNamesFinal(columns, normalized, picked, i);
      }
    }
  }
}
