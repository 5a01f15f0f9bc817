/**
 * Value-level reference definitions for the operations of the resizable,
 * heap-backed CML vector, over the element sequence of a vector.
 *
 * The elements are modelled as mathematical integers, so `std::min`,
 * `std::max`, `Element(0)` and `Element(1)` become integer minimum,
 * maximum, 0 and 1.  Each definition here is independent of the loops in
 * module DynamicVector; the methods there are proved to produce exactly
 * these values, and the lemmas below state what the values mean.
 */
module VectorSpec {

  /** `std::min(a, b)`: `a` unless `b < a`. */
  function Min(a: int, b: int): int {
    if b < a then b else a
  }

  /** `std::max(a, b)`: `a` unless `a < b`. */
  function Max(a: int, b: int): int {
    if a < b then b else a
  }

  /** A vector of length `n` whose every element is `v`. */
  function Filled(n: nat, v: int): (r: seq<int>)
    ensures |r| == n
    ensures forall k :: 0 <= k < n ==> r[k] == v
  {
    if n == 0 then [] else Filled(n - 1, v) + [v]
  }

  /** The cardinal (unit basis) vector of length `n` along axis `i`. */
  function Basis(n: nat, i: nat): (r: seq<int>)
    requires i < n
    ensures |r| == n
    ensures r[i] == 1
    ensures forall k :: 0 <= k < n && k != i ==> r[k] == 0
  {
    Filled(n, 0)[i := 1]
  }

  /**
   * Pairwise minimum of `a` with the first `|a|` elements of `b`;
   * `b` may be longer, never shorter.
   */
  function Minimized(a: seq<int>, b: seq<int>): (r: seq<int>)
    requires |a| <= |b|
    ensures |r| == |a|
    ensures forall k :: 0 <= k < |a| ==> r[k] <= a[k] && r[k] <= b[k]
    ensures forall k :: 0 <= k < |a| ==> r[k] == a[k] || r[k] == b[k]
  {
    if a == [] then [] else [Min(a[0], b[0])] + Minimized(a[1..], b[1..])
  }

  /** Pairwise maximum of `a` with the first `|a|` elements of `b`. */
  function Maximized(a: seq<int>, b: seq<int>): (r: seq<int>)
    requires |a| <= |b|
    ensures |r| == |a|
    ensures forall k :: 0 <= k < |a| ==> a[k] <= r[k] && b[k] <= r[k]
    ensures forall k :: 0 <= k < |a| ==> r[k] == a[k] || r[k] == b[k]
  {
    if a == [] then [] else [Max(a[0], b[0])] + Maximized(a[1..], b[1..])
  }

  /** `s` with the element at index `i` taken out, the others kept in order. */
  function Removed(s: seq<int>, i: nat): (r: seq<int>)
    requires i < |s|
    ensures |r| == |s| - 1
    ensures forall k :: 0 <= k < i ==> r[k] == s[k]
    ensures forall k :: i <= k < |s| - 1 ==> r[k] == s[k + 1]
  {
    s[..i] + s[i + 1..]
  }

  /** The dot product of two vectors of equal length. */
  function Dot(a: seq<int>, b: seq<int>): int
    requires |a| == |b|
  {
    if a == [] then 0 else a[0] * b[0] + Dot(a[1..], b[1..])
  }

  /** The dot product distributes over concatenation of aligned pieces. */
  lemma {:induction false} DotAppend(a1: seq<int>, a2: seq<int>, b1: seq<int>, b2: seq<int>)
    requires |a1| == |b1| && |a2| == |b2|
    ensures Dot(a1 + a2, b1 + b2) == Dot(a1, b1) + Dot(a2, b2)
  {
    if a1 != [] {
      assert (a1 + a2)[1..] == a1[1..] + a2;
      assert (b1 + b2)[1..] == b1[1..] + b2;
      DotAppend(a1[1..], a2, b1[1..], b2);
    } else {
      assert a1 + a2 == a2 && b1 + b2 == b2;
    }
  }

  /**
   * A vector dotted with itself is never negative, and it is zero exactly
   * when every element is zero.
   */
  lemma {:induction false} DotSelf(s: seq<int>)
    ensures Dot(s, s) >= 0
    ensures Dot(s, s) == 0 <==> forall k :: 0 <= k < |s| ==> s[k] == 0
  {
    if s != [] {
      DotSelf(s[1..]);
      assert s[0] * s[0] >= 0;
      if s[0] != 0 {
        assert s[0] * s[0] > 0;
      } else {
        assert forall k :: 1 <= k < |s| ==> s[k] == s[1..][k - 1];
      }
    }
  }

  /** Every cardinal vector has squared length 1. */
  lemma {:induction false} DotSelfOfBasis(n: nat, i: nat)
    requires i < n
    ensures Dot(Basis(n, i), Basis(n, i)) == 1
  {
    var b := Basis(n, i);
    var before, after := b[..i], b[i + 1..];
    assert b == before + [1] + after;
    DotAppend(before + [1], after, before + [1], after);
    DotAppend(before, [1], before, [1]);
    DotSelf(before);
    DotSelf(after);
  }

  /**
   * Taking element `i` out of a vector takes exactly its square out of the
   * squared length.
   */
  lemma {:induction false} DotSelfOfRemoved(s: seq<int>, i: nat)
    requires i < |s|
    ensures Dot(Removed(s, i), Removed(s, i)) == Dot(s, s) - s[i] * s[i]
  {
    var before, after := s[..i], s[i + 1..];
    assert s == before + [s[i]] + after;
    DotAppend(before + [s[i]], after, before + [s[i]], after);
    DotAppend(before, [s[i]], before, [s[i]]);
    DotAppend(before, after, before, after);
  }

  /** Removing any index from a constant vector leaves a shorter constant vector. */
  lemma RemovedOfFilled(n: nat, v: int, i: nat)
    requires i < n
    ensures Removed(Filled(n, v), i) == Filled(n - 1, v)
  {
  }

  /** A sequence that is pointwise `Min(a[k], b[k])` is `Minimized(a, b)`. */
  lemma MinimizedAt(a: seq<int>, b: seq<int>, r: seq<int>)
    requires |a| <= |b| && |r| == |a|
    requires forall k :: 0 <= k < |a| ==> r[k] == Min(a[k], b[k])
    ensures r == Minimized(a, b)
  {
  }

  /** A sequence that is pointwise `Max(a[k], b[k])` is `Maximized(a, b)`. */
  lemma MaximizedAt(a: seq<int>, b: seq<int>, r: seq<int>)
    requires |a| <= |b| && |r| == |a|
    requires forall k :: 0 <= k < |a| ==> r[k] == Max(a[k], b[k])
    ensures r == Maximized(a, b)
  {
  }

  /** The squared length of `[3, 4, 0]` is 25. */
  lemma DotSelfExample()
    ensures Dot([3, 4, 0], [3, 4, 0]) == 25
  {
  }
}
