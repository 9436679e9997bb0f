/** c10/util/ArrayRef.h: `ArrayRef<T>`, a non-owning view of `length`
    consecutive elements starting at a pointer. Memory is a sequence of
    elements and a pointer is a position in one; the view never changes
    what it points to. */
module ArrayRefs {
  import opened Wrappers

  /** `size_t`. */
  const SizeMax: nat := 0x1_0000_0000_0000_0000
  type SizeT = x: nat | x < SizeMax

  /** `const T*`: null, or the element at `offset` of a buffer `mem`
      (`offset == |mem|` is the one-past-the-end pointer). */
  datatype Pointer<T> = Null | Ptr(mem: seq<T>, offset: nat)

  /** The fields `data_` and `length_`. */
  datatype ArrayRef<T> = ArrayRef(data: Pointer<T>, length: SizeT)

  /** The view covers real elements: a null view is empty, and a non-null
      one stays inside its buffer. Every constructor establishes this. */
  predicate Valid<T>(r: ArrayRef<T>) {
    match r.data
    case Null => r.length == 0
    case Ptr(mem, offset) => offset + r.length <= |mem|
  }

  /** The elements the view shows, in order: `[begin(), end())`. */
  function Elems<T>(r: ArrayRef<T>): (s: seq<T>)
    requires Valid(r)
    ensures |s| == r.length
  {
    match r.data
    case Null => []
    case Ptr(mem, offset) => mem[offset..offset + r.length]
  }

  // ---------------------------------------------------------------------------
  // Constructors

  /** `ArrayRef()`: null data, no elements. */
  function Default<T>(): (r: ArrayRef<T>)
    ensures Valid(r) && r.data.Null? && r.length == 0 && Elems(r) == []
  {
    ArrayRef(Null, 0)
  }

  /** `ArrayRef(const T& oneValue)`: a view of the single object at `mem[i]`. */
  function OfOne<T>(mem: seq<T>, i: nat): (r: ArrayRef<T>)
    requires i < |mem|
    ensures Valid(r) && r.data == Ptr(mem, i) && Elems(r) == [mem[i]]
  {
    ArrayRef(Ptr(mem, i), 1)
  }

  /** `ArrayRef(const T* data, size_t length)`: rejected when `data` is null
      and `length` is not 0. A non-null `data` must point at `length`
      readable elements. */
  function FromPointer<T>(data: Pointer<T>, length: SizeT): (r: Result<ArrayRef<T>, string>)
    requires data.Ptr? ==> data.offset + length <= |data.mem|
    ensures r.Err? <==> data.Null? && length > 0
    ensures r.Ok? ==> Valid(r.value) && r.value.data == data && r.value.length == length
    ensures r.Ok? && data.Ptr? ==> Elems(r.value) == data.mem[data.offset..data.offset + length]
  {
    if data.Ptr? || length == 0 then Ok(ArrayRef(data, length))
    else Err("created ArrayRef with nullptr and non-zero length")
  }

  /** `begin` and `end` delimit a range: both null, or both in one buffer
      with `begin <= end` (pointer subtraction is defined only then). */
  ghost predicate IsRange<T>(begin: Pointer<T>, end: Pointer<T>) {
    (begin.Null? && end.Null?)
    || (begin.Ptr? && end.Ptr? && begin.mem == end.mem
        && begin.offset <= end.offset <= |end.mem| && end.offset - begin.offset < SizeMax)
  }

  /** `end - begin`. */
  function Distance<T>(begin: Pointer<T>, end: Pointer<T>): SizeT
    requires IsRange(begin, end)
  {
    if begin.Null? then 0 else end.offset - begin.offset
  }

  /** `ArrayRef(const T* begin, const T* end)`: the same check as
      `FromPointer`; on a range it never fails, since a null `begin`
      comes with a zero length. */
  function FromRange<T>(begin: Pointer<T>, end: Pointer<T>): (r: Result<ArrayRef<T>, string>)
    requires IsRange(begin, end)
    ensures r.Ok? && Valid(r.value) && r.value.data == begin
    ensures begin.Ptr? ==> Elems(r.value) == begin.mem[begin.offset..end.offset]
    ensures begin.Null? ==> Elems(r.value) == []
  {
    var length := Distance(begin, end);
    if begin.Ptr? || length == 0 then Ok(ArrayRef(begin, length))
    else Err("created ArrayRef with nullptr and non-zero length")
  }

  /** `ArrayRef(const std::vector<T>&)`, `ArrayRef(const std::array<T, N>&)`
      and `ArrayRef(const T (&)[N])`: a view of the whole container. */
  function FromContainer<T>(v: seq<T>): (r: ArrayRef<T>)
    requires |v| < SizeMax
    ensures Valid(r) && r.data == Ptr(v, 0) && Elems(r) == v
  {
    ArrayRef(Ptr(v, 0), |v|)
  }

  /** `ArrayRef(const std::initializer_list<T>&)`: null data for an empty list. */
  function FromInitializerList<T>(v: seq<T>): (r: ArrayRef<T>)
    requires |v| < SizeMax
    ensures Valid(r) && Elems(r) == v
    ensures r.data.Null? <==> v == []
  {
    ArrayRef(if v == [] then Null else Ptr(v, 0), |v|)
  }

  // ---------------------------------------------------------------------------
  // Accessors

  /** `empty()`. */
  function IsEmpty<T>(r: ArrayRef<T>): (b: bool)
    requires Valid(r)
    ensures b <==> Elems(r) == []
  {
    r.length == 0
  }

  /** `front()`: rejected on an empty view, otherwise the first element. */
  function Front<T>(r: ArrayRef<T>): (x: Result<T, string>)
    requires Valid(r)
    ensures x.Err? <==> Elems(r) == []
    ensures x.Ok? ==> x.value == Elems(r)[0]
  {
    if IsEmpty(r) then Err("ArrayRef: attempt to access front() of empty ArrayRef")
    else Ok(r.data.mem[r.data.offset])
  }

  /** `back()`: rejected on an empty view, otherwise the last element. */
  function Back<T>(r: ArrayRef<T>): (x: Result<T, string>)
    requires Valid(r)
    ensures x.Err? <==> Elems(r) == []
    ensures x.Ok? ==> x.value == Elems(r)[|Elems(r)| - 1]
  {
    if IsEmpty(r) then Err("ArrayRef: attempt to access back() of empty ArrayRef")
    else Ok(r.data.mem[r.data.offset + r.length - 1])
  }

  /** `operator[]`: unchecked, so the index must be in range. */
  function Index<T>(r: ArrayRef<T>, index: SizeT): (x: T)
    requires Valid(r) && index < r.length
    ensures x == Elems(r)[index]
  {
    r.data.mem[r.data.offset + index]
  }

  /** `at(index)`: rejected when `index >= size()`, otherwise `[index]`. */
  function At<T>(r: ArrayRef<T>, index: SizeT): (x: Result<T, string>)
    requires Valid(r)
    ensures x.Err? <==> index >= r.length
    ensures x.Ok? ==> x.value == Elems(r)[index]
  {
    if index < r.length then Ok(Index(r, index)) else Err("ArrayRef: index out of range")
  }

  /** `vec()`: a new vector of the elements, in order. */
  function Vec<T>(r: ArrayRef<T>): (v: seq<T>)
    requires Valid(r)
    ensures |v| == r.length
    ensures forall i :: 0 <= i < |v| ==> v[i] == Index(r, i)
  {
    Elems(r)
  }

  // ---------------------------------------------------------------------------
  // Equality

  /** `std::equal(a.begin(), a.end(), b.begin())` on equally long ranges:
      element by element from the front. */
  function ElementsEqual<T(==)>(a: seq<T>, b: seq<T>): (r: bool)
    requires |a| == |b|
    ensures r <==> a == b
  {
    if |a| == 0 then true
    else a[0] == b[0] && ElementsEqual(a[1..], b[1..])
  }

  /** `equals(rhs)`: same length and pairwise equal elements. */
  function EqualsRef<T(==)>(lhs: ArrayRef<T>, rhs: ArrayRef<T>): (r: bool)
    requires Valid(lhs) && Valid(rhs)
    ensures r <==> Elems(lhs) == Elems(rhs)
  {
    lhs.length == rhs.length && ElementsEqual(Elems(lhs), Elems(rhs))
  }

  /** `operator==(ArrayRef, ArrayRef)`. */
  function Eq<T(==)>(lhs: ArrayRef<T>, rhs: ArrayRef<T>): (r: bool)
    requires Valid(lhs) && Valid(rhs)
    ensures r <==> Elems(lhs) == Elems(rhs)
  {
    EqualsRef(lhs, rhs)
  }

  /** `operator!=(ArrayRef, ArrayRef)`. */
  function Ne<T(==)>(lhs: ArrayRef<T>, rhs: ArrayRef<T>): (r: bool)
    requires Valid(lhs) && Valid(rhs)
    ensures r <==> Elems(lhs) != Elems(rhs)
  {
    !EqualsRef(lhs, rhs)
  }

  /** `operator==(const std::vector<T>&, ArrayRef)`. */
  function VecEq<T(==)>(lhs: seq<T>, rhs: ArrayRef<T>): (r: bool)
    requires |lhs| < SizeMax && Valid(rhs)
    ensures r <==> lhs == Elems(rhs)
  {
    EqualsRef(FromContainer(lhs), rhs)
  }

  /** `operator!=(const std::vector<T>&, ArrayRef)`. */
  function VecNe<T(==)>(lhs: seq<T>, rhs: ArrayRef<T>): (r: bool)
    requires |lhs| < SizeMax && Valid(rhs)
    ensures r <==> lhs != Elems(rhs)
  {
    !EqualsRef(FromContainer(lhs), rhs)
  }

  /** `operator==(ArrayRef, const std::vector<T>&)`. */
  function EqVec<T(==)>(lhs: ArrayRef<T>, rhs: seq<T>): (r: bool)
    requires Valid(lhs) && |rhs| < SizeMax
    ensures r <==> Elems(lhs) == rhs
  {
    EqualsRef(lhs, FromContainer(rhs))
  }

  /** `operator!=(ArrayRef, const std::vector<T>&)`. */
  function NeVec<T(==)>(lhs: ArrayRef<T>, rhs: seq<T>): (r: bool)
    requires Valid(lhs) && |rhs| < SizeMax
    ensures r <==> Elems(lhs) != rhs
  {
    !EqualsRef(lhs, FromContainer(rhs))
  }

  // ---------------------------------------------------------------------------
  // Slicing

  /** `slice(N, M)` as written: the check `N + M <= size()` is evaluated in
      `size_t`, where the sum wraps modulo 2^64, and the result is
      `ArrayRef(data_ + N, M)`. The constructor's own check (null data
      only with length zero) is not repeated: on a null view the wrapped
      sum can pass only with `N != 0`, and then `nullptr + N` (undefined
      behaviour in C++) is a non-null address that passes the check, so the
      model keeps such a view as `ArrayRef(Null, M)`, which is not `Valid`. */
  function SliceAsWritten<T>(r: ArrayRef<T>, n: SizeT, m: SizeT): (s: Result<ArrayRef<T>, string>)
    requires Valid(r)
    ensures s.Err? <==> (n + m) % SizeMax > r.length
    ensures n + m <= r.length ==> s == Slice(r, n, m)
  {
    if (n + m) % SizeMax > r.length then Err("ArrayRef: slice(n, m) with n + m > size()")
    else
      match r.data
      case Null => Ok(ArrayRef(Null, m))
      case Ptr(mem, offset) => Ok(ArrayRef(Ptr(mem, offset + n), m))
  }

  /** The wrapped check lets through a slice that starts past the end of a
      four-element view: the view it returns covers no real elements. */
  lemma SliceAsWrittenOverruns<T>(mem: seq<T>)
    requires |mem| == 4
    ensures SliceAsWritten(FromContainer(mem), SizeMax - 1, 2).Ok?
    ensures !Valid(SliceAsWritten(FromContainer(mem), SizeMax - 1, 2).value)
    ensures Slice(FromContainer(mem), SizeMax - 1, 2).Err?
  {
  }

  /** `slice(N, M)`: the `M` elements starting at element `N`, rejected
      unless they lie inside the view. The bound is taken without
      wrap-around (see `SliceAsWritten`). */
  function Slice<T>(r: ArrayRef<T>, n: SizeT, m: SizeT): (s: Result<ArrayRef<T>, string>)
    requires Valid(r)
    ensures s.Err? <==> n + m > r.length
    ensures s.Ok? ==> Valid(s.value) && s.value.length == m
    ensures s.Ok? ==> Elems(s.value) == Elems(r)[n..n + m]
    ensures s.Ok? ==> forall i :: 0 <= i < m ==> Index(s.value, i) == Index(r, n + i)
  {
    if n + m > r.length then Err("ArrayRef: slice(n, m) with n + m > size()")
    else
      match r.data
      case Null => Ok(ArrayRef(Null, m))
      case Ptr(mem, offset) =>
        SubSlice(mem, offset, offset + r.length, n, n + m);
        assert Elems(r)[n..n + m] == mem[offset + n..offset + n + m];
        FromPointer(Ptr(mem, offset + n), m)
  }

  /** `slice(N)`: everything from element `N` on, rejected when `N > size()`. */
  function SliceFrom<T>(r: ArrayRef<T>, n: SizeT): (s: Result<ArrayRef<T>, string>)
    requires Valid(r)
    ensures s.Err? <==> n > r.length
    ensures s.Ok? ==> Valid(s.value) && Elems(s.value) == Elems(r)[n..]
  {
    if n > r.length then Err("ArrayRef: slice(n) with n > size()")
    else Slice(r, n, r.length - n)
  }

  // ---------------------------------------------------------------------------
  // Properties

  /** A view of a container gives the container back through `vec()`. */
  lemma ContainerRoundTrip<T>(v: seq<T>)
    requires |v| < SizeMax
    ensures Vec(FromContainer(v)) == v
    ensures Vec(FromInitializerList(v)) == v
  {
  }

  /** `==` and `!=` are each other's negation, in all three overloads. */
  lemma NeIsNotEq<T>(a: ArrayRef<T>, b: ArrayRef<T>, v: seq<T>)
    requires Valid(a) && Valid(b) && |v| < SizeMax
    ensures Ne(a, b) == !Eq(a, b)
    ensures VecNe(v, a) == !VecEq(v, a) && NeVec(a, v) == !EqVec(a, v)
    ensures VecEq(v, a) == EqVec(a, v)
  {
  }

  /** Equality is an equivalence: views of the same elements are equal
      whatever their data pointers. */
  lemma EqIsEquivalence<T>(a: ArrayRef<T>, b: ArrayRef<T>, c: ArrayRef<T>)
    requires Valid(a) && Valid(b) && Valid(c)
    ensures Eq(a, a)
    ensures Eq(a, b) == Eq(b, a)
    ensures Eq(a, b) && Eq(b, c) ==> Eq(a, c)
  {
  }

  /** A slice of a slice is one slice of the original. */
  lemma SliceOfSlice<T>(r: ArrayRef<T>, n1: SizeT, m1: SizeT, n2: SizeT, m2: SizeT)
    requires Valid(r) && Slice(r, n1, m1).Ok? && n1 + n2 < SizeMax
    ensures Slice(Slice(r, n1, m1).value, n2, m2).Ok? <==> Slice(r, n1 + n2, m2).Ok? && n2 + m2 <= m1
    ensures Slice(Slice(r, n1, m1).value, n2, m2).Ok? ==>
      Elems(Slice(Slice(r, n1, m1).value, n2, m2).value) == Elems(Slice(r, n1 + n2, m2).value)
  {
    if n2 + m2 <= m1 {
      SubSlice(Elems(r), n1, n1 + m1, n2, n2 + m2);
    }
  }

  /** A sub-range of a sub-range is one sub-range of the whole. */
  lemma SubSlice<T>(x: seq<T>, a: nat, b: nat, c: nat, d: nat)
    requires a <= b <= |x| && c <= d <= b - a
    ensures x[a..b][c..d] == x[a + c..a + d]
  {
    forall i | 0 <= i < d - c
      ensures x[a..b][c..d][i] == x[a + c..a + d][i]
    {
      assert x[a..b][c..d][i] == x[a..b][c + i] == x[a + c + i];
    }
  }

  /** `slice(N)` is `slice(N, size() - N)`, and `slice(0)` shows every element. */
  lemma SliceFromWhole<T>(r: ArrayRef<T>)
    requires Valid(r)
    ensures SliceFrom(r, 0).Ok? && Elems(SliceFrom(r, 0).value) == Elems(r)
    ensures SliceFrom(r, r.length).Ok? && IsEmpty(SliceFrom(r, r.length).value)
  {
  }

  /** `at` agrees with `[]` wherever `[]` is defined, and `front`/`back` are
      `at(0)` and `at(size() - 1)`. */
  lemma AtAgreesWithIndex<T>(r: ArrayRef<T>, i: SizeT)
    requires Valid(r)
    ensures i < r.length ==> At(r, i) == Ok(Index(r, i))
    ensures r.length > 0 ==> Front(r) == At(r, 0) && Back(r) == At(r, r.length - 1)
  {
  }

  /** test_eq: views of a C array, a vector, a `std::array` and an
      initializer list of 1, 2, 3, 4 are all equal, equal the vector, and
      differ from 1, 2, 3, 5. */
  lemma EqualityScenario(arr: seq<int>, vec: seq<int>, il: seq<int>)
    requires arr == vec == il == [1, 2, 3, 4]
    ensures Eq(FromContainer(arr), FromContainer(vec)) && Eq(FromContainer(vec), FromInitializerList(il))
    ensures EqVec(FromContainer(arr), vec) && VecEq(vec, FromContainer(arr))
    ensures !EqVec(FromContainer(arr), [1, 2, 3, 5]) && !VecEq([1, 2, 3, 5], FromInitializerList(il))
    ensures NeVec(FromContainer(vec), [1, 2, 3, 5])
  {
    assert Elems(FromContainer(arr)) != [1, 2, 3, 5] by {
      assert Elems(FromContainer(arr))[3] == 4;
    }
  }

  /** test_ctor2: a (data, size) view of 1, 2, 3, 4 has front 1, back 4 and
      `at(2) == 3`, `at(3) == 4`. */
  lemma AccessScenario(vec: seq<int>)
    requires vec == [1, 2, 3, 4]
    ensures FromPointer(Ptr(vec, 0), 4).Ok?
    ensures Front(FromPointer(Ptr(vec, 0), 4).value) == Ok(1)
    ensures Back(FromPointer(Ptr(vec, 0), 4).value) == Ok(4)
    ensures At(FromPointer(Ptr(vec, 0), 4).value, 2) == Ok(3)
    ensures At(FromPointer(Ptr(vec, 0), 4).value, 3) == Ok(4)
    ensures At(FromPointer(Ptr(vec, 0), 4).value, 4).Err?
  {
  }
}
