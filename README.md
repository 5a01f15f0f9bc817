# CML dynamic vector, modelled in Dafny

This project models `vector<Element, dynamic<Alloc>>`, the resizable,
heap-backed vector of the Configurable Math Library (CML), with integer
elements. A vector owns one element buffer. Here that buffer is the array
`data` of class `DynamicVector.Vector`, and the vector's size is its length.

The library's in-place buffer operations are methods with loops, and each
is proved against a value-level reference definition in module
`VectorSpec`:

- `zero`/`Zero()` are proved to give `Filled(n, 0)`;
- the fill constructor and `Constant` are proved to give `Filled(n, v)`;
- `cardinal(i)` is proved to give `Basis(n, i)`;
- `minimize`/`maximize` are proved to give `Minimized`/`Maximized`;
- `subvector(i)` is proved to give `Removed(s, i)`.

`length_squared` is the dot product of the vector with itself (`Dot`). The
lemmas prove what these definitions mean: squared length is never
negative, and it is zero exactly for the zero vector. A cardinal vector has
squared length 1. Removing element `i` takes exactly its square out of the
squared length.

The library does not check indices, so each index it trusts its caller
with becomes a `requires`:

- `cardinal(i)` needs `i < size()`;
- `subvector(i)` needs `size() >= 1` and `i < size()`, because `size()-1`
  would underflow and the copy `s[n++]` would overrun;
- `minimize(v)` and `maximize(v)` read `v[i]` for every `i < size()`, so
  they need `v.size() >= size()`.

A size mismatch is not reported either: for a `v` shorter than the vector,
`minimize` and `maximize` read past its end, and the model states nothing.

`DynamicVector.ConstantSubvectorExample` is a client that relies on the
class contracts alone. It shows that `Constant(4, 2).subvector(1)` is
`[2, 2, 2]`, and that a size-3 cardinal vector along axis 2 is `[0, 0, 1]`
with squared length 1.

## Model

| member | source | states |
|---|---|---|
| `VectorSpec.Filled` | src/cml/vector/dynamic.h:114-121 | a constant vector has the requested length and every element equals the fill value |
| `VectorSpec.Basis` | src/cml/vector/dynamic.h:124-128 | the cardinal vector along `i` has length `n`, element `i` is 1 and every other element is 0 |
| `VectorSpec.Minimized` | src/cml/vector/dynamic.h:131-137 | each element of the result is at most both operands' elements at that index and equals one of them, so it is their minimum; length is unchanged |
| `VectorSpec.Maximized` | src/cml/vector/dynamic.h:140-146 | each element of the result is at least both operands' elements at that index and equals one of them, so it is their maximum; length is unchanged |
| `VectorSpec.Removed` | src/cml/vector/dynamic.h:155-164 | removing index `i` gives length `size-1`; elements before `i` keep their index and elements after it shift down by one |
| `VectorSpec.DotSelf` | src/cml/vector/dynamic.h:80-82 | a vector dotted with itself is non-negative, and it is zero if and only if every element is zero |
| `VectorSpec.DotSelfOfBasis` | src/cml/vector/dynamic.h:124-128 | every cardinal vector has squared length 1 |
| `VectorSpec.DotSelfOfRemoved` | src/cml/vector/dynamic.h:159-164 | the subvector's squared length is the original's minus the square of the removed element |
| `VectorSpec.RemovedOfFilled` | src/cml/vector/dynamic.h:159-164 | removing any index from a constant vector of length `n` gives the constant vector of length `n-1` (`Constant(4,2).subvector(1)` is `[2,2,2]`) |
| `VectorSpec.DotSelfExample` | src/cml/vector/dynamic.h:80-82 | the squared length of `[3,4,0]` is 25 |
| `DynamicVector.Vector.LengthSquared` | src/cml/vector/dynamic.h:80-82 | the squared length is non-negative and is zero exactly when every element is zero |
| `DynamicVector.Vector.SetZero` | src/cml/vector/dynamic.h:95-99 | `zero()` keeps the size and sets every element to 0, so the squared length becomes 0 |
| `DynamicVector.Vector.Zero` | src/cml/vector/dynamic.h:102-104 | `Zero()` has exactly the effect of `zero()` |
| `DynamicVector.Vector.Zeros` | src/cml/vector/dynamic.h:107-111 | static `Zero(size)` returns a fresh vector of `size` zeros |
| `DynamicVector.Vector.Constant` | src/cml/vector/dynamic.h:114-121 | `Constant(size, value)` returns a fresh vector of `size` elements, each equal to `value` |
| `DynamicVector.Vector.Empty` | src/cml/vector/dynamic.h:170 | the default constructor makes a fresh, empty vector |
| `DynamicVector.Vector.constructor` | src/cml/vector/dynamic.h:173 | `vector(N)` makes a fresh buffer of `N` elements with unspecified values |
| `DynamicVector.Vector.Fill` | src/cml/vector/dynamic.h:176-179 | `vector(N, stdval)` makes a fresh buffer of `N` elements, each equal to `stdval` |
| `DynamicVector.Vector.Cardinal` | src/cml/vector/dynamic.h:124-128 | for `i < size()`, the size is kept, element `i` becomes 1, every other element becomes 0, and the squared length becomes 1 |
| `DynamicVector.Vector.Minimize` | src/cml/vector/dynamic.h:131-137 | for `v.size() >= size()`, each element becomes the minimum of its old value and `v`'s old element at that index; `v` is unchanged unless it shares this vector's buffer |
| `DynamicVector.Vector.Maximize` | src/cml/vector/dynamic.h:140-146 | as `Minimize`, with the maximum |
| `DynamicVector.Vector.Subvector` | src/cml/vector/dynamic.h:159-164 | for `1 <= size()` and `i < size()`, returns a fresh vector holding the elements other than `i` in their original order; its squared length is the original's minus the square of the removed element; the source vector is unchanged |

## Left out

- Element type: elements are mathematical integers, not a generic `Element` (typically a floating-point type). No overflow or rounding is modelled.
- `DynamicVector.Vector.Minimize` and `DynamicVector.Vector.Maximize` take only a `DynamicVector.Vector`. The library's `minimize` and `maximize` accept a `v` of any storage kind (`vector<E,AT>`, src/cml/vector/dynamic.h:131-132 and :140-141). The library does not promote element types: `std::min` and `std::max` need both operands to have the same type.
- `length` and `normalize` (src/cml/vector/dynamic.h:85-92): they need a square root and scalar division on floating-point values.
- `random` (src/cml/vector/dynamic.h:149-153): it draws each element from the external `cml::random_real` generator.
- `DynamicVector.Vector.Zeros` and `DynamicVector.Vector.Constant` take a `nat` size. The library takes an `int`; a negative size would be converted to a huge unsigned size when the buffer is allocated. That allocation failure is not modelled.
- `zero()` uses the expression-template unroller (`UnrollAssignment`) to assign `Element(0)` to every element. It is modelled by its observable effect, a loop that assigns 0 to each index. The unroller and expression engine (`vector_expr.h`, `vector_unroller.h`) are not part of this model.
- The constructors and assignment operators generated by the `CML_CONSTRUCT_VEC_*`, `CML_VEC_COPY_*`, `CML_ASSIGN_VEC_*` and `CML_VEC_ASSIGN_FROM_*` macros (src/cml/vector/dynamic.h:185-209): they expand to code in `class_ops.h`, which is not part of this model.
- The `dynamic_1D` storage array and its allocator: a vector's buffer is a fresh array of the requested length. `subvector` allocates its result at size `size()-1` directly instead of default-constructing it and calling `resize`.
- The compile-time tag typedefs (src/cml/vector/dynamic.h:30-74): they drive template dispatch and have no run-time behaviour.
- `DynamicVector.Vector.SetZero`, `DynamicVector.Vector.Zero` and `DynamicVector.Vector.Cardinal` return nothing. The library's `zero()`, `Zero()` and `cardinal(i)` return `*this` so that calls can be chained (src/cml/vector/dynamic.h:98, :103, :127). The caller already holds the vector, so this model does not return it again.
