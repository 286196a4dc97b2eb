// The portfolio projection of utils/helpers.py: `enforce_constraints` maps a raw
// weight vector to a feasible portfolio (at most `cardinality` assets held,
// no negative weight, weights summing to one).
//
// The source does this in two stages, and so does the model:
//  * the cardinality step zeroes, IN PLACE on the caller's array, every entry
//    that `np.argsort` places before the last `cardinality` positions;
//  * the clip / sum / renormalise step works on a fresh vector and is a pure
//    function of the (already zeroed) array.
// Weights are reals: floating-point rounding is not modelled.
module Helpers {

  /** The threshold below which the clipped weights count as all zero. */
  const Epsilon: real := 0.000001

  function Sum(s: seq<real>): real
    decreases |s|
  {
    if |s| == 0 then 0.0 else Sum(s[..|s| - 1]) + s[|s| - 1]
  }

  /** One entry of `np.maximum(weights, 0.0)`. */
  function Max0(x: real): real
  {
    if x > 0.0 then x else 0.0
  }

  /** `np.maximum(weights, 0.0)`: negative entries become zero. */
  function Clip(s: seq<real>): seq<real>
  {
    seq(|s|, i requires 0 <= i < |s| => Max0(s[i]))
  }

  /** `weights / total`, entry by entry. */
  function Scale(s: seq<real>, total: real): seq<real>
    requires total != 0.0
  {
    seq(|s|, i requires 0 <= i < |s| => s[i] / total)
  }

  /** `np.ones(n) / n`; for n == 0 numpy yields the empty vector. */
  function Uniform(n: nat): (r: seq<real>)
    ensures |r| == n
    ensures forall i :: 0 <= i < n ==> r[i] == 1.0 / (n as real)
    ensures n > 0 ==> Sum(r) == 1.0
  {
    if n == 0 then []
    else
      var u := seq(n, _ => 1.0 / (n as real));
      SumConstant(u, 1.0 / (n as real));
      u
  }

  /** The indices holding a non-zero weight: the assets a portfolio holds. */
  function Support(s: seq<real>): set<nat>
  {
    set i: nat | i < |s| && s[i] != 0.0
  }

  /** The set {0, ..., n-1}. */
  function IndexSet(n: nat): set<nat>
  {
    set a | 0 <= a < n :: Range(n)[a]
  }

  // ---------------------------------------------------------------------
  // np.argsort and the slice sorted_indices[:-cardinality]
  // ---------------------------------------------------------------------

  predicate Distinct(s: seq<nat>)
  {
    forall a, b :: 0 <= a < b < |s| ==> s[a] != s[b]
  }

  predicate IndicesOf(v: seq<real>, idx: seq<nat>)
  {
    forall a :: 0 <= a < |idx| ==> idx[a] < |v|
  }

  /** Every element of `order` is a position of `v`, and the values ascend along `order`. */
  predicate Ascending(v: seq<real>, order: seq<nat>)
  {
    && IndicesOf(v, order)
    && forall a, b :: 0 <= a < b < |order| ==> v[order[a]] <= v[order[b]]
  }

  /** The position, within `idx`, of an index whose value is smallest. */
  function MinPosition(v: seq<real>, idx: seq<nat>): (k: nat)
    requires |idx| > 0 && IndicesOf(v, idx)
    ensures k < |idx|
    ensures forall a :: 0 <= a < |idx| ==> v[idx[k]] <= v[idx[a]]
    decreases |idx|
  {
    if |idx| == 1 then 0
    else
      var k := MinPosition(v, idx[1..]);
      if v[idx[0]] <= v[idx[k + 1]] then 0 else k + 1
  }

  /** The indices `idx` reordered so that their values ascend. */
  function SortIndices(v: seq<real>, idx: seq<nat>): (order: seq<nat>)
    requires IndicesOf(v, idx) && Distinct(idx)
    ensures |order| == |idx| && multiset(order) == multiset(idx)
    ensures Distinct(order) && Ascending(v, order)
    decreases |idx|
  {
    if |idx| == 0 then []
    else
      var k := MinPosition(v, idx);
      var rest := idx[..k] + idx[k + 1..];
      RemoveAt(idx, k);
      var tail := SortIndices(v, rest);
      PrependMin(v, idx, k, rest, tail);
      [idx[k]] + tail
  }

  /** Putting a smallest index in front of the sorted remaining ones gives a sorted permutation. */
  lemma PrependMin(v: seq<real>, idx: seq<nat>, k: nat, rest: seq<nat>, tail: seq<nat>)
    requires IndicesOf(v, idx) && k < |idx|
    requires forall a :: 0 <= a < |idx| ==> v[idx[k]] <= v[idx[a]]
    requires multiset(rest) + multiset{idx[k]} == multiset(idx) && idx[k] !in rest
    requires forall x :: x in rest ==> x in idx
    requires |tail| == |rest| && multiset(tail) == multiset(rest)
    requires Distinct(tail) && Ascending(v, tail)
    ensures |[idx[k]] + tail| == |idx| && multiset([idx[k]] + tail) == multiset(idx)
    ensures Distinct([idx[k]] + tail) && Ascending(v, [idx[k]] + tail)
  {
    var order := [idx[k]] + tail;
    calc {
      multiset(order);
      multiset{idx[k]} + multiset(tail);
      multiset(rest) + multiset{idx[k]};
      multiset(idx);
    }
    assert forall b :: 0 <= b < |tail| ==> tail[b] in multiset(rest);
    forall b | 0 <= b < |tail|
      ensures tail[b] != idx[k] && v[idx[k]] <= v[tail[b]]
    {
      assert tail[b] in rest;
      var a :| 0 <= a < |idx| && idx[a] == tail[b];
    }
  }

  /** Removing position k keeps the other indices, and keeps them distinct. */
  lemma RemoveAt(idx: seq<nat>, k: nat)
    requires k < |idx| && Distinct(idx)
    ensures multiset(idx[..k] + idx[k + 1..]) + multiset{idx[k]} == multiset(idx)
    ensures Distinct(idx[..k] + idx[k + 1..])
    ensures idx[k] !in idx[..k] + idx[k + 1..]
    ensures forall x :: x in idx[..k] + idx[k + 1..] ==> x in idx
  {
    var rest := idx[..k] + idx[k + 1..];
    assert idx == idx[..k] + [idx[k]] + idx[k + 1..];
    assert forall j :: 0 <= j < |rest| ==> rest[j] == if j < k then idx[j] else idx[j + 1];
  }

  function Range(n: nat): (r: seq<nat>)
    ensures |r| == n && Distinct(r)
    ensures forall i :: 0 <= i < n ==> r[i] == i
  {
    seq(n, i => i)
  }

  /**
   * `np.argsort(v)`: a permutation of the positions of `v` under which the
   * values ascend. numpy's default sort is not stable, so the model fixes no
   * order among equal values: nothing below depends on one.
   */
  function Argsort(v: seq<real>): (order: seq<nat>)
    ensures |order| == |v| && multiset(order) == multiset(Range(|v|))
    ensures Distinct(order) && Ascending(v, order)
  {
    SortIndices(v, Range(|v|))
  }

  /** Python's slice `s[:-c]` for c >= 0: `s[:-0]` is `s[:0]`, which is empty. */
  function DropLast(s: seq<nat>, c: nat): (r: seq<nat>)
    ensures |r| == if c == 0 || |s| <= c then 0 else |s| - c
    ensures r == s[..|r|]
  {
    if c == 0 || |s| <= c then [] else s[..|s| - c]
  }

  /** How many entries of a length-n vector the cardinality step zeroes. */
  function ZeroCount(n: nat, dimensions: nat, cardinality: nat): (m: nat)
    ensures m <= n
    ensures n == dimensions && dimensions > cardinality >= 1 ==> m == dimensions - cardinality
    ensures dimensions <= cardinality || cardinality == 0 ==> m == 0
  {
    if dimensions > cardinality then |DropLast(Range(n), cardinality)| else 0
  }

  /**
   * `after` is `before` with exactly the positions in `zeroed` set to 0, and
   * no zeroed value exceeds a kept one.
   */
  ghost predicate ZeroedAt(before: seq<real>, after: seq<real>, zeroed: set<nat>)
  {
    && |after| == |before|
    && (forall i :: i in zeroed ==> i < |before|)
    && (forall i :: 0 <= i < |before| ==> after[i] == if i in zeroed then 0.0 else before[i])
    && (forall i, j :: i in zeroed && 0 <= j < |before| && j !in zeroed ==> before[i] <= before[j])
  }

  /**
   * What lines 8-10 of enforce_constraints may do to the caller's array: zero
   * ZeroCount positions holding the smallest values. Among equal values any
   * choice is allowed, as with an unstable sort.
   */
  ghost predicate Selection(before: seq<real>, after: seq<real>, dimensions: nat, cardinality: nat)
  {
    exists zeroed: set<nat> :: |zeroed| == ZeroCount(|before|, dimensions, cardinality) && ZeroedAt(before, after, zeroed)
  }

  // ---------------------------------------------------------------------
  // Lines 12-18: clip, sum, renormalise or fall back to the uniform vector
  // ---------------------------------------------------------------------

  /**
   * The result of enforce_constraints for the (already zeroed) array `z`.
   * Every entry is non-negative; if the clipped weights sum to more than
   * Epsilon they are rescaled to sum to exactly one, otherwise the result is
   * the uniform vector over all `dimensions`, whatever the cardinality.
   */
  function ClipAndNormalise(z: seq<real>, dimensions: nat): (r: seq<real>)
    ensures forall i :: 0 <= i < |r| ==> r[i] >= 0.0
    ensures Sum(Clip(z)) > Epsilon ==>
              |r| == |z| && Sum(r) == 1.0 &&
              forall i :: 0 <= i < |z| ==> r[i] == Max0(z[i]) / Sum(Clip(z))
    ensures Sum(Clip(z)) <= Epsilon ==> r == Uniform(dimensions)
    ensures Support(r) <= Support(z) || Sum(Clip(z)) <= Epsilon
  {
    var clipped := Clip(z);
    var total := Sum(clipped);
    if total > Epsilon then
      SumScale(clipped, total);
      assert total / total == 1.0;
      Scale(clipped, total)
    else
      Uniform(dimensions)
  }

  // ---------------------------------------------------------------------
  // enforce_constraints
  // ---------------------------------------------------------------------

  /**
   * enforce_constraints(weights, dimensions, cardinality). The caller's array
   * is changed at the zeroed positions only (clipping and division act on a
   * fresh vector); the result is ClipAndNormalise of the zeroed array.
   */
  method EnforceConstraints(weights: array<real>, dimensions: nat, cardinality: nat) returns (r: seq<real>)
    modifies weights
    ensures Selection(old(weights[..]), weights[..], dimensions, cardinality)
    ensures r == ClipAndNormalise(weights[..], dimensions)
  {
    ghost var before := weights[..];
    ghost var zeroed: set<nat> := {};
    if dimensions > cardinality {
      var sortedIndices := Argsort(weights[..]);
      var drop := DropLast(sortedIndices, cardinality);
      forall i | 0 <= i < weights.Length && i in drop {
        weights[i] := 0.0;
      }
      zeroed := SmallestZeroed(before, sortedIndices, |drop|);
    }
    assert ZeroedAt(before, weights[..], zeroed);
    r := ClipAndNormalise(weights[..], dimensions);
  }

  // ---------------------------------------------------------------------
  // Lemmas
  // ---------------------------------------------------------------------

  /**
   * The indices argsort places before position m are m distinct positions,
   * and none of their values exceeds a value at any other position.
   */
  lemma SmallestZeroed(v: seq<real>, order: seq<nat>, m: nat) returns (zeroed: set<nat>)
    requires |order| == |v| && multiset(order) == multiset(Range(|v|))
    requires Distinct(order) && Ascending(v, order)
    requires m <= |v|
    ensures zeroed == set a | 0 <= a < m :: order[a]
    ensures |zeroed| == m
    ensures forall i :: 0 <= i < |v| ==> (i in order[..m] <==> i in zeroed)
    ensures forall i :: i in zeroed ==> i < |v|
    ensures forall i, j :: i in zeroed && 0 <= j < |v| && j !in zeroed ==> v[i] <= v[j]
  {
    zeroed := set a | 0 <= a < m :: order[a];
    DistinctPrefixCard(order, m);
    forall i, j | i in zeroed && 0 <= j < |v| && j !in zeroed
      ensures v[i] <= v[j]
    {
      var a :| 0 <= a < m && order[a] == i;
      assert j in multiset(Range(|v|)) by { assert Range(|v|)[j] == j; }
      var b :| 0 <= b < |order| && order[b] == j;
      assert b >= m;
    }
    forall i | 0 <= i < |v| && i in order[..m]
      ensures i in zeroed
    {
      var a :| 0 <= a < m && order[..m][a] == i;
      assert order[a] == i;
    }
  }

  lemma {:induction false} SumScale(s: seq<real>, total: real)
    requires total != 0.0
    ensures Sum(Scale(s, total)) == Sum(s) / total
    decreases |s|
  {
    if |s| > 0 {
      var n := |s| - 1;
      assert Scale(s, total)[..n] == Scale(s[..n], total);
      SumScale(s[..n], total);
    }
  }

  lemma {:induction false} SumConstant(s: seq<real>, x: real)
    requires forall i :: 0 <= i < |s| ==> s[i] == x
    ensures Sum(s) == (|s| as real) * x
    decreases |s|
  {
    if |s| > 0 {
      SumConstant(s[..|s| - 1], x);
    }
  }

  lemma {:induction false} DistinctPrefixCard(s: seq<nat>, m: nat)
    requires Distinct(s) && m <= |s|
    ensures |set a | 0 <= a < m :: s[a]| == m
    decreases m
  {
    if m > 0 {
      DistinctPrefixCard(s, m - 1);
      var smaller := set a | 0 <= a < m - 1 :: s[a];
      assert (set a | 0 <= a < m :: s[a]) == smaller + {s[m - 1]};
      assert s[m - 1] !in smaller;
    }
  }

  lemma {:induction false} SubsetCard(a: set<nat>, b: set<nat>)
    requires a <= b
    ensures |a| <= |b|
    decreases |a|
  {
    if a != {} {
      var x :| x in a;
      SubsetCard(a - {x}, b - {x});
    }
  }

  /** The positions a Selection zeroes. */
  lemma ZeroedSet(before: seq<real>, after: seq<real>, dimensions: nat, cardinality: nat) returns (zeroed: set<nat>)
    requires Selection(before, after, dimensions, cardinality)
    ensures |zeroed| == ZeroCount(|before|, dimensions, cardinality) && ZeroedAt(before, after, zeroed)
  {
    zeroed :| |zeroed| == ZeroCount(|before|, dimensions, cardinality) && ZeroedAt(before, after, zeroed);
  }

  /** The cardinality step only ever writes zeros. */
  lemma SelectionOnlyZeroes(before: seq<real>, after: seq<real>, dimensions: nat, cardinality: nat)
    requires Selection(before, after, dimensions, cardinality)
    ensures |after| == |before|
    ensures forall i :: 0 <= i < |before| ==> after[i] == before[i] || after[i] == 0.0
  {
    var zeroed := ZeroedSet(before, after, dimensions, cardinality);
  }

  /** Two zeroed sets of the same size: one that has an extra index misses one of the other's. */
  lemma MissedIndex(zeroed: set<nat>, other: set<nat>, e: nat) returns (q: nat)
    requires |zeroed| == |other| && e in other && e !in zeroed
    ensures q in zeroed && q !in other
  {
    if zeroed <= other - {e} {
      SubsetCard(zeroed, other - {e});
      assert false;
    }
    q :| q in zeroed && q !in other - {e};
  }

  /**
   * When dimensions exceed the cardinality and the projection does not
   * degenerate, the result holds at most `cardinality` assets.
   */
  lemma ProjectionCardinality(w: seq<real>, z: seq<real>, dimensions: nat, cardinality: nat)
    requires Selection(w, z, dimensions, cardinality)
    requires Sum(Clip(z)) > Epsilon
    ensures |Support(ClipAndNormalise(z, dimensions))| <= |w| - ZeroCount(|w|, dimensions, cardinality)
    ensures |w| == dimensions > cardinality >= 1 ==> |Support(ClipAndNormalise(z, dimensions))| <= cardinality
  {
    var zeroed := ZeroedSet(w, z, dimensions, cardinality);
    var held := Support(ClipAndNormalise(z, dimensions));
    assert held <= Support(z);
    assert held * zeroed == {};
    forall e | e in held + zeroed
      ensures e in IndexSet(|w|)
    {
      assert Range(|w|)[e] == e;
    }
    SubsetCard(held + zeroed, IndexSet(|w|));
    DistinctPrefixCard(Range(|w|), |w|);
  }

  /** With no more assets than the cardinality allows, nothing is zeroed. */
  lemma WithinCardinality(w: seq<real>, z: seq<real>, dimensions: nat, cardinality: nat)
    requires dimensions <= cardinality || |w| <= cardinality
    requires Selection(w, z, dimensions, cardinality)
    ensures z == w
    ensures ClipAndNormalise(z, dimensions) == ClipAndNormalise(w, dimensions)
  {
    var zeroed := ZeroedSet(w, z, dimensions, cardinality);
    assert zeroed == {};
  }

  /**
   * Projecting a second time an array that has already been zeroed gives the
   * same portfolio: the second zeroing can only hit entries that are zero or
   * negative, and those are clipped to zero anyway.
   */
  lemma ReprojectionStable(w: seq<real>, z: seq<real>, z2: seq<real>, dimensions: nat, cardinality: nat)
    requires Selection(w, z, dimensions, cardinality)
    requires Selection(z, z2, dimensions, cardinality)
    ensures Clip(z2) == Clip(z)
    ensures ClipAndNormalise(z2, dimensions) == ClipAndNormalise(z, dimensions)
  {
    var zeroed := ZeroedSet(w, z, dimensions, cardinality);
    var again := ZeroedSet(z, z2, dimensions, cardinality);
    forall e | e in again && e !in zeroed
      ensures z[e] <= 0.0
    {
      var q := MissedIndex(zeroed, again, e);
      assert z[q] == 0.0;
    }
    assert forall i :: 0 <= i < |z| ==> Clip(z2)[i] == Clip(z)[i];
  }

  /** A non-negative vector that already sums to one is its own projection. */
  lemma ProjectionFixedPoint(r: seq<real>, dimensions: nat)
    requires forall i :: 0 <= i < |r| ==> r[i] >= 0.0
    requires Sum(r) == 1.0
    ensures ClipAndNormalise(r, dimensions) == r
  {
    assert Clip(r) == r;
    assert Scale(r, 1.0) == r;
  }

  /**
   * Applying enforce_constraints to a non-degenerate result of
   * enforce_constraints returns that result unchanged, and leaves the array
   * holding it unchanged too.
   */
  lemma ProjectionIdempotent(w: seq<real>, z: seq<real>, z2: seq<real>, dimensions: nat, cardinality: nat)
    requires Selection(w, z, dimensions, cardinality)
    requires Sum(Clip(z)) > Epsilon
    requires Selection(ClipAndNormalise(z, dimensions), z2, dimensions, cardinality)
    ensures z2 == ClipAndNormalise(z, dimensions)
    ensures ClipAndNormalise(z2, dimensions) == ClipAndNormalise(z, dimensions)
  {
    var r := ClipAndNormalise(z, dimensions);
    var zeroed := ZeroedSet(w, z, dimensions, cardinality);
    var again := ZeroedSet(r, z2, dimensions, cardinality);
    assert |r| == |z| == |w|;
    forall i | i in zeroed
      ensures r[i] == 0.0
    {
      assert z[i] == 0.0;
    }
    ZeroingNonNegativeIsNoop(r, z2, zeroed, again);
    ProjectionFixedPoint(r, dimensions);
  }

  /**
   * Zeroing the smallest entries of a non-negative vector that is already
   * zero at as many positions changes nothing.
   */
  lemma ZeroingNonNegativeIsNoop(r: seq<real>, z2: seq<real>, zeroed: set<nat>, again: set<nat>)
    requires forall i :: 0 <= i < |r| ==> r[i] >= 0.0
    requires forall i :: i in zeroed ==> i < |r| && r[i] == 0.0
    requires |again| == |zeroed| && ZeroedAt(r, z2, again)
    ensures z2 == r
  {
    forall e | e in again
      ensures r[e] == 0.0
    {
      if e !in zeroed {
        var q := MissedIndex(zeroed, again, e);
      }
    }
  }
}
