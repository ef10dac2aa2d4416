/** Small types and sequence facts shared by every module. */
module Prelude {
  datatype Option<+T> = None | Some(value: T)

  datatype Result<+T, +E> = Ok(value: T) | Err(error: E)

  function Max(a: int, b: int): int {
    if a < b then b else a
  }

  /** No value occurs twice. */
  ghost predicate Distinct<T>(s: seq<T>) {
    forall i, j :: 0 <= i < j < |s| ==> s[i] != s[j]
  }

  lemma DistinctAppend<T>(s: seq<T>, x: T)
    requires Distinct(s) && x !in s
    ensures Distinct(s + [x])
  {
  }

  /** A sequence without repetitions has as many elements as the set of its values. */
  lemma {:induction false} DistinctCard<T>(s: seq<T>)
    requires Distinct(s)
    ensures |set x | x in s| == |s|
  {
    if s != [] {
      var rest := s[..|s| - 1];
      DistinctCard(rest);
      assert s == rest + [s[|s| - 1]];
      assert (set x | x in s) == (set x | x in rest) + {s[|s| - 1]};
    }
  }

  /** A repetition-free sequence over a finite set is no longer than the set. */
  lemma DistinctWithin<T>(s: seq<T>, bound: set<T>)
    requires Distinct(s) && forall x :: x in s ==> x in bound
    ensures |s| <= |bound|
    ensures |s| == |bound| ==> forall x :: x in bound ==> x in s
  {
    var values := set x | x in s;
    DistinctCard(s);
    assert values <= bound;
    SubsetCard(values, bound);
  }

  lemma {:induction false} SubsetCard<T>(a: set<T>, b: set<T>)
    requires a <= b
    ensures |a| <= |b|
    ensures |a| == |b| ==> a == b
  {
    assert |b| == |a| + |b - a| by {
      assert b == a + (b - a);
    }
  }

  function Sum(s: seq<nat>): nat {
    if s == [] then 0 else s[0] + Sum(s[1..])
  }

  lemma {:induction false} SumOfBoth(a: seq<nat>, b: seq<nat>)
    ensures Sum(a + b) == Sum(a) + Sum(b)
  {
    if a == [] {
      assert a + b == b;
    } else {
      SumOfBoth(a[1..], b);
      assert (a + b)[1..] == a[1..] + b;
    }
  }

  // --- Arithmetic of averages --------------------------------------------------------

  lemma Monotone(a: nat, b: nat, factor: nat)
    ensures a <= b ==> a * factor <= b * factor
  {
  }

  lemma OneMore(factor: nat, n: nat)
    ensures factor * (n + 1) == factor * n + factor
  {
  }

  /** An average of integers lies between their bounds, and only without remainder at the upper one. */
  lemma QuotientWithin(sum: nat, count: nat, low: nat, high: nat)
    requires count > 0 && low * count <= sum <= high * count
    ensures low <= sum / count <= high && (sum / count == high ==> sum % count == 0)
  {
    var q := sum / count;
    assert sum == q * count + sum % count;
    OneMore(count, q);
    Monotone(q + 1, low, count);
    Monotone(high + 1, q, count);
    OneMore(count, high);
  }
}
