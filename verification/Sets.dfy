/** Sizes of finite sets. */
module Sets {

  lemma {:induction false} SubsetSize<T>(part: set<T>, whole: set<T>)
    requires part <= whole
    ensures |part| <= |whole| && (|part| == |whole| <==> part == whole)
  {
    assert whole == part + (whole - part) && part !! whole - part;
    assert |whole| == |part| + |whole - part|;
  }

  function Range(from: nat, n: nat): (range: set<nat>)
    ensures |range| == n
    ensures forall i :: i in range <==> from <= i < from + n
  {
    if n == 0 then {} else Range(from, n - 1) + {from + n - 1}
  }
}
