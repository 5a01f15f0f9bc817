/**
 * The resizable, dynamic-memory specialization of the CML vector
 * (`vector<Element, dynamic<Alloc>>`), with integer elements.
 *
 * The vector owns one heap buffer, modelled as the array `data`; its size is
 * the length of that buffer.  Indexing is unchecked in the library, so every
 * index the library trusts its caller with becomes a `requires` here.
 */
module DynamicVector {
  import opened VectorSpec

  class Vector {
    /** The element buffer owned by this vector. */
    var data: array<int>

    /** `size()`: the number of elements in the buffer. */
    function Size(): nat
      reads this
    {
      data.Length
    }

    /** The elements of the vector, in index order. */
    ghost function Elements(): seq<int>
      reads this, data
    {
      data[..]
    }

    /** Default construction: an empty vector. */
    constructor Empty()
      ensures fresh(data)
      ensures Elements() == []
    {
      data := new int[0];
    }

    /** `vector(N)`: a buffer of `n` elements whose values are left unspecified. */
    constructor (n: nat)
      ensures fresh(data)
      ensures Size() == n
    {
      data := new int[n];
    }

    /** `vector(N, stdval)`: `n` elements, each set to `stdval`. */
    constructor Fill(n: nat, stdval: int)
      ensures fresh(data)
      ensures Elements() == Filled(n, stdval)
    {
      data := new int[n];
      new;
      var i := 0;
      while i < n
        invariant 0 <= i <= n
        invariant fresh(data) && data.Length == n
        invariant forall k :: 0 <= k < i ==> data[k] == stdval
      {
        data[i] := stdval;
        i := i + 1;
      }
    }

    /** `length_squared()`: the vector dotted with itself. */
    function LengthSquared(): (r: int)
      reads this, data
      ensures r >= 0
      ensures r == 0 <==> forall k :: 0 <= k < data.Length ==> data[k] == 0
    {
      DotSelf(data[..]);
      Dot(data[..], data[..])
    }

    /** `zero()`: assign 0 to every element; the size stays the same. */
    method SetZero()
      modifies data
      ensures Elements() == Filled(Size(), 0)
      ensures LengthSquared() == 0
    {
      var i := 0;
      while i < data.Length
        invariant 0 <= i <= data.Length
        invariant forall k :: 0 <= k < i ==> data[k] == 0
      {
        data[i] := 0;
        i := i + 1;
      }
    }

    /** `Zero()`: the same operation as `zero()`. */
    method Zero()
      modifies data
      ensures Elements() == Filled(Size(), 0)
      ensures LengthSquared() == 0
    {
      SetZero();
    }

    /** Static `Zero(size)`: a fresh vector of `size` zeros. */
    static method Zeros(size: nat) returns (result: Vector)
      ensures fresh(result) && fresh(result.data)
      ensures result.Elements() == Filled(size, 0)
    {
      result := new Vector(size);
      result.Zero();
    }

    /** Static `Constant(size, value)`: a fresh vector of `size` copies of `value`. */
    static method Constant(size: nat, value: int) returns (result: Vector)
      ensures fresh(result) && fresh(result.data)
      ensures result.Elements() == Filled(size, value)
    {
      result := new Vector(size);
      var i := 0;
      while i < size
        invariant 0 <= i <= size
        invariant fresh(result) && fresh(result.data) && result.data.Length == size
        invariant forall k :: 0 <= k < i ==> result.data[k] == value
      {
        result.data[i] := value;
        i := i + 1;
      }
    }

    /**
     * `cardinal(i)`: zero the vector, then set element `i` to 1.  The
     * library does not check `i`; an index past the end writes out of bounds.
     */
    method Cardinal(i: nat)
      requires i < Size()
      modifies data
      ensures Elements() == Basis(Size(), i)
      ensures LengthSquared() == 1
    {
      SetZero();
      data[i] := 1;
      DotSelfOfBasis(data.Length, i);
      assert data[..] == Basis(data.Length, i);
    }

    /**
     * `minimize(v)`: every element becomes the smaller of itself and the
     * element of `v` at the same index.  The loop runs over this vector's
     * size and reads `v` unchecked, so `v` must be at least as long.  `v`
     * may be this very vector.
     */
    method Minimize(v: Vector)
      requires v.Size() >= Size()
      modifies data
      ensures Elements() == Minimized(old(Elements()), old(v.Elements()))
      ensures v.data != data ==> v.Elements() == old(v.Elements())
    {
      var i := 0;
      while i < data.Length
        invariant 0 <= i <= data.Length
        invariant forall k :: 0 <= k < i ==> data[k] == Min(old(data[k]), old(v.data[k]))
        invariant forall k :: i <= k < data.Length ==> data[k] == old(data[k])
        invariant forall k :: i <= k < v.data.Length ==> v.data[k] == old(v.data[k])
        invariant v.data != data ==> v.data[..] == old(v.data[..])
      {
        data[i] := Min(data[i], v.data[i]);
        i := i + 1;
      }
      MinimizedAt(old(data[..]), old(v.data[..]), data[..]);
    }

    /** `maximize(v)`: as `minimize`, with the larger of the two elements. */
    method Maximize(v: Vector)
      requires v.Size() >= Size()
      modifies data
      ensures Elements() == Maximized(old(Elements()), old(v.Elements()))
      ensures v.data != data ==> v.Elements() == old(v.Elements())
    {
      var i := 0;
      while i < data.Length
        invariant 0 <= i <= data.Length
        invariant forall k :: 0 <= k < i ==> data[k] == Max(old(data[k]), old(v.data[k]))
        invariant forall k :: i <= k < data.Length ==> data[k] == old(data[k])
        invariant forall k :: i <= k < v.data.Length ==> v.data[k] == old(v.data[k])
        invariant v.data != data ==> v.data[..] == old(v.data[..])
      {
        data[i] := Max(data[i], v.data[i]);
        i := i + 1;
      }
      MaximizedAt(old(data[..]), old(v.data[..]), data[..]);
    }

    /**
     * `subvector(i)`: a fresh vector holding every element but the one at
     * `i`, in order.  The library sizes the result `size()-1` and copies
     * with a second counter, so it needs a non-empty vector and `i` in range.
     */
    method Subvector(i: nat) returns (s: Vector)
      requires 1 <= Size() && i < Size()
      ensures fresh(s) && fresh(s.data)
      ensures s.Elements() == Removed(Elements(), i)
      ensures s.LengthSquared() == LengthSquared() - data[i] * data[i]
    {
      s := new Vector(data.Length - 1);
      var m, n := 0, 0;
      while m < data.Length
        invariant 0 <= m <= data.Length
        invariant fresh(s) && fresh(s.data) && s.data.Length == data.Length - 1
        invariant n == if m <= i then m else m - 1
        invariant forall k :: 0 <= k < n && k < i ==> s.data[k] == data[k]
        invariant forall k :: i <= k < n ==> s.data[k] == data[k + 1]
      {
        if m != i {
          s.data[n] := data[m];
          n := n + 1;
        }
        m := m + 1;
      }
      assert s.data[..] == Removed(data[..], i);
      DotSelfOfRemoved(data[..], i);
    }
  }

  /**
   * A client of the class contracts alone: `Constant(4, 2).subvector(1)`
   * is three twos, and a cardinal vector of size 3 along axis 2 has
   * squared length 1.
   */
  method ConstantSubvectorExample()
  {
    var c := Vector.Constant(4, 2);
    var s := c.Subvector(1);
    RemovedOfFilled(4, 2, 1);
    assert s.Elements() == [2, 2, 2];
    var e := new Vector(3);
    e.Cardinal(2);
    assert e.Elements() == [0, 0, 1] && e.LengthSquared() == 1;
  }
}
