/** Powers of two, sizes of sets, and sums over sets. */
module Counting {

  function Pow2(n: nat): nat {
    if n == 0 then 1 else 2 * Pow2(n - 1)
  }

  lemma SubsetSize<T>(part: set<T>, whole: set<T>)
    requires part <= whole
    ensures |part| + |whole - part| == |whole|
  {
    assert part + (whole - part) == whole;
  }

  /** The sum of `f` over a finite set. */
  ghost function Sum(ids: set<string>, f: string -> nat): nat {
    if ids == {} then 0
    else
      var id :| id in ids;
      f(id) + Sum(ids - {id}, f)
  }

  /** The sum does not depend on the order of summation. */
  lemma {:induction false} SumSplit(ids: set<string>, id: string, f: string -> nat)
    requires id in ids
    ensures Sum(ids, f) == f(id) + Sum(ids - {id}, f)
  {
    var first :| first in ids && Sum(ids, f) == f(first) + Sum(ids - {first}, f);
    if first != id {
      SumSplit(ids - {first}, id, f);
      SumSplit(ids - {id}, first, f);
      assert ids - {first} - {id} == ids - {id} - {first};
    }
  }

  lemma {:induction false} SumAtMost(ids: set<string>, f: string -> nat, g: string -> nat)
    requires forall id :: id in ids ==> f(id) <= g(id)
    ensures Sum(ids, f) <= Sum(ids, g)
  {
    if ids != {} {
      var id :| id in ids;
      SumSplit(ids, id, f);
      SumSplit(ids, id, g);
      SumAtMost(ids - {id}, f, g);
    }
  }

  /** Adding one at a single place adds one to the sum. */
  lemma SumPlusOne(ids: set<string>, place: string, f: string -> nat, g: string -> nat)
    requires place in ids && g(place) == f(place) + 1
    requires forall id :: id in ids && id != place ==> g(id) == f(id)
    ensures Sum(ids, g) == Sum(ids, f) + 1
  {
    SumSplit(ids, place, f);
    SumSplit(ids, place, g);
    SumAtMost(ids - {place}, f, g);
    SumAtMost(ids - {place}, g, f);
  }

  lemma {:induction false} SumOfZeros(ids: set<string>, f: string -> nat)
    requires forall id :: id in ids ==> f(id) == 0
    ensures Sum(ids, f) == 0
  {
    if ids != {} {
      var id :| id in ids;
      SumSplit(ids, id, f);
      SumOfZeros(ids - {id}, f);
    }
  }
}
