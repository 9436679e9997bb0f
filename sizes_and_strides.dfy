/** c10/core/SizesAndStrides.h: the sizes and strides of a tensor of at most
    `MaxSize` dimensions, kept inline in one array of `2 * MaxSize` 64-bit
    integers: sizes in slots `[0, MaxSize)`, strides in `[MaxSize, 2 * MaxSize)`. */
module SizesStrides {
  import ArrayRefs

  /** `C10_SIZES_AND_STRIDES_MAX_SIZE`. */
  const MaxSize: nat := 10

  /** `int64_t`. */
  type Int64 = x: int | -0x8000_0000_0000_0000 <= x < 0x8000_0000_0000_0000

  /** `n` zeros. */
  function Zeros(n: nat): (z: seq<Int64>)
    ensures |z| == n && forall i :: 0 <= i < n ==> z[i] == 0
  {
    seq(n, _ => 0)
  }

  /** The debug assertions of the class (`idx < size()` in the element
      accessors, `new_size <= MaxSize` in `resize`) are preconditions; as the
      number of dimensions never exceeds `MaxSize`, the latter also covers
      the no-op case of `resize`. */
  class SizesAndStrides {
    /** `size_`: the number of dimensions. */
    var size: nat
    /** `storage_`. */
    var storage: array<Int64>

    /** The storage has its fixed length, and every mutator keeps the
        number of dimensions within it. */
    ghost predicate Valid()
      reads this
    {
      storage.Length == 2 * MaxSize && size <= MaxSize
    }

    /** The sizes in use: `sizes_arrayref()`. */
    function Sizes(): seq<Int64>
      requires Valid()
      reads this, storage
    {
      storage[..size]
    }

    /** The strides in use: `strides_arrayref()`. */
    function Strides(): seq<Int64>
      requires Valid()
      reads this, storage
    {
      storage[MaxSize..MaxSize + size]
    }

    /** The default constructor: one dimension of size 0 and stride 1, every
        other slot zero-initialised. */
    constructor ()
      ensures Valid() && fresh(storage)
      ensures size == 1 && Sizes() == [0] && Strides() == [1]
      ensures forall i :: 0 <= i < 2 * MaxSize ==> storage[i] == (if i == MaxSize then 1 else 0)
    {
      size := 1;
      var s := new Int64[2 * MaxSize](_ => 0);
      s[MaxSize] := 1;
      storage := s;
    }

    /** The copy constructor: the same size and a copy of all of the storage. */
    constructor Copy(rhs: SizesAndStrides)
      requires rhs.Valid()
      ensures Valid() && fresh(storage)
      ensures size == rhs.size && storage[..] == rhs.storage[..]
      ensures Sizes() == rhs.Sizes() && Strides() == rhs.Strides()
    {
      size := rhs.size;
      var src := rhs.storage[..];
      storage := new Int64[2 * MaxSize](i requires 0 <= i < |src| => src[i]);
    }

    /** The move constructor: a copy, after which the source has no dimensions
        (its storage is left as it was). */
    constructor Move(rhs: SizesAndStrides)
      requires rhs.Valid()
      modifies rhs
      ensures Valid() && fresh(storage)
      ensures size == old(rhs.size) && storage[..] == rhs.storage[..]
      ensures rhs.Valid() && rhs.size == 0 && rhs.storage == old(rhs.storage)
      ensures rhs.storage[..] == old(rhs.storage[..])
    {
      size := rhs.size;
      var src := rhs.storage[..];
      storage := new Int64[2 * MaxSize](i requires 0 <= i < |src| => src[i]);
      rhs.size := 0;
    }

    /** `copy_data`: `memcpy` of the whole storage from `rhs`. */
    method CopyData(rhs: SizesAndStrides)
      requires Valid() && rhs.Valid()
      modifies storage
      ensures storage[..] == old(rhs.storage[..])
    {
      forall i | 0 <= i < 2 * MaxSize {
        storage[i] := rhs.storage[i];
      }
    }

    /** Copy assignment: nothing on self-assignment, otherwise the same size
        and a copy of all of the storage. */
    method CopyAssign(rhs: SizesAndStrides)
      requires Valid() && rhs.Valid()
      modifies this, storage
      ensures Valid() && storage == old(storage)
      ensures size == old(rhs.size) && storage[..] == old(rhs.storage[..])
      ensures rhs == this ==> size == old(size) && storage[..] == old(storage[..])
    {
      if this != rhs {
        size := rhs.size;
        CopyData(rhs);
      }
    }

    /** Move assignment: nothing on self-assignment, otherwise a copy after
        which the source has no dimensions. */
    method MoveAssign(rhs: SizesAndStrides)
      requires Valid() && rhs.Valid()
      modifies this, storage, rhs
      ensures Valid() && rhs.Valid() && storage == old(storage) && rhs.storage == old(rhs.storage)
      ensures rhs == this ==> size == old(size) && storage[..] == old(storage[..])
      ensures rhs != this ==> size == old(rhs.size) && storage[..] == old(rhs.storage[..]) && rhs.size == 0
    {
      if this != rhs {
        size := rhs.size;
        CopyData(rhs);
        rhs.size := 0;
      }
    }

    /** `size_at(idx)`: the debug assertion `idx < size()` is a precondition. */
    function SizeAt(idx: nat): (v: Int64)
      requires Valid() && idx < size
      reads this, storage
      ensures v == Sizes()[idx]
    {
      storage[idx]
    }

    /** `stride_at(idx)`. */
    function StrideAt(idx: nat): (v: Int64)
      requires Valid() && idx < size
      reads this, storage
      ensures v == Strides()[idx]
    {
      storage[MaxSize + idx]
    }

    /** Writing through the reference `size_at(idx)` returns. */
    method SetSizeAt(idx: nat, v: Int64)
      requires Valid() && idx < size
      modifies storage
      ensures Valid() && Sizes() == old(Sizes())[idx := v] && Strides() == old(Strides())
      ensures storage[..] == old(storage[..])[idx := v]
    {
      storage[idx] := v;
    }

    /** Writing through the reference `stride_at(idx)` returns. */
    method SetStrideAt(idx: nat, v: Int64)
      requires Valid() && idx < size
      modifies storage
      ensures Valid() && Strides() == old(Strides())[idx := v] && Sizes() == old(Sizes())
      ensures storage[..] == old(storage[..])[MaxSize + idx := v]
    {
      storage[MaxSize + idx] := v;
    }

    /** `size_at_unchecked(idx)`: no check against `size()`, only against the
        sizes half of the storage. */
    function SizeAtUnchecked(idx: nat): (v: Int64)
      requires Valid() && idx < MaxSize
      reads this, storage
      ensures idx < size ==> v == Sizes()[idx]
    {
      storage[idx]
    }

    /** `stride_at_unchecked(idx)`. */
    function StrideAtUnchecked(idx: nat): (v: Int64)
      requires Valid() && idx < MaxSize
      reads this, storage
      ensures idx < size ==> v == Strides()[idx]
    {
      storage[MaxSize + idx]
    }

    /** `resize(new_size)`: nothing when the size is unchanged; otherwise
        growing zeroes the new size and stride slots, shrinking keeps the
        storage as it is, and the size becomes `newSize`. */
    method Resize(newSize: nat)
      requires Valid() && newSize <= MaxSize
      modifies this, storage
      ensures Valid() && size == newSize && storage == old(storage)
      ensures storage[..] == Resized(old(storage[..]), old(size), newSize)
    {
      var oldSize := size;
      if newSize == oldSize {
        return;
      }
      if oldSize < newSize {
        forall i | oldSize <= i < newSize {
          storage[i] := 0;
        }
        forall i | oldSize + MaxSize <= i < newSize + MaxSize {
          storage[i] := 0;
        }
      }
      size := newSize;
    }

    /** `set_sizes(new_sizes)`: resize to its length, then `std::copy` the
        sizes in. The strides of the dimensions that stay are unchanged. */
    method SetSizes(newSizes: ArrayRefs.ArrayRef<Int64>)
      requires Valid() && ArrayRefs.Valid(newSizes)
      requires newSizes.length <= MaxSize
      modifies this, storage
      ensures Valid() && storage == old(storage)
      ensures Sizes() == ArrayRefs.Elems(newSizes)
      ensures Strides() == Resized(old(storage[..]), old(size), newSizes.length)[MaxSize..MaxSize + size]
      ensures forall i :: 0 <= i < size && i < old(size) ==> Strides()[i] == old(Strides())[i]
    {
      ghost var before := storage[..];
      var values := ArrayRefs.Elems(newSizes);
      Resize(newSizes.length);
      forall i | 0 <= i < |values| {
        storage[i] := values[i];
      }
      assert Strides() == Resized(before, old(size), newSizes.length)[MaxSize..MaxSize + size];
    }

    /** `set_strides(new_strides)`: the internal assertion that the length
        matches `size()` is reported in `ok`; on success the strides are
        `std::copy`-ed in and nothing else changes. */
    method SetStrides(newStrides: ArrayRefs.ArrayRef<Int64>) returns (ok: bool)
      requires Valid() && ArrayRefs.Valid(newStrides)
      modifies storage
      ensures Valid() && (ok <==> newStrides.length == size)
      ensures ok ==> Strides() == ArrayRefs.Elems(newStrides) && Sizes() == old(Sizes())
      ensures ok ==> forall i :: 0 <= i < 2 * MaxSize && !(MaxSize <= i < MaxSize + size) ==> storage[i] == old(storage[i])
      ensures !ok ==> storage[..] == old(storage[..])
    {
      if newStrides.length != size {
        return false;
      }
      var values := ArrayRefs.Elems(newStrides);
      forall i | 0 <= i < |values| {
        storage[MaxSize + i] := values[i];
      }
      ok := true;
    }
  }

  /** The storage after `resize` from `oldSize` to `newSize`: the slots a
      growing resize adds, sizes and strides, become 0. */
  function Resized(s: seq<Int64>, oldSize: nat, newSize: nat): (r: seq<Int64>)
    requires |s| == 2 * MaxSize
    ensures |r| == 2 * MaxSize
  {
    seq(2 * MaxSize, i requires 0 <= i < 2 * MaxSize =>
      if oldSize <= i < newSize || oldSize + MaxSize <= i < newSize + MaxSize then 0 else s[i])
  }

  /** What `resize` does to the two views: the dimensions that stay keep
      their size and stride, the added ones get size 0 and stride 0. */
  lemma ResizedViews(s: seq<Int64>, oldSize: nat, newSize: nat)
    requires |s| == 2 * MaxSize && oldSize <= MaxSize && newSize <= MaxSize
    ensures Resized(s, oldSize, newSize)[..newSize]
         == if newSize <= oldSize then s[..newSize] else s[..oldSize] + Zeros(newSize - oldSize)
    ensures Resized(s, oldSize, newSize)[MaxSize..MaxSize + newSize]
         == if newSize <= oldSize then s[MaxSize..MaxSize + newSize]
            else s[MaxSize..MaxSize + oldSize] + Zeros(newSize - oldSize)
  {
    var r := Resized(s, oldSize, newSize);
    if newSize > oldSize {
      assert r[..newSize] == s[..oldSize] + Zeros(newSize - oldSize);
      assert r[MaxSize..MaxSize + newSize] == s[MaxSize..MaxSize + oldSize] + Zeros(newSize - oldSize);
    } else {
      assert r[..newSize] == s[..newSize];
      assert r[MaxSize..MaxSize + newSize] == s[MaxSize..MaxSize + newSize];
    }
  }

  /** Resizing to the same size changes nothing, and a shrink followed by a
      grow back does not restore the dropped dimensions: they come back as
      zeros. */
  lemma ResizeRoundTrip(s: seq<Int64>, oldSize: nat, newSize: nat)
    requires |s| == 2 * MaxSize && newSize <= oldSize <= MaxSize
    ensures Resized(s, oldSize, oldSize) == s
    ensures Resized(Resized(s, oldSize, newSize), newSize, oldSize)[..oldSize]
         == s[..newSize] + Zeros(oldSize - newSize)
  {
    assert Resized(s, oldSize, oldSize) == s;
    var r := Resized(s, oldSize, newSize);
    assert r == s;
    ResizedViews(r, newSize, oldSize);
  }

  /** A tensor of shape 2 x 3 in row-major order: `set_sizes({2, 3})` then
      `set_strides({3, 1})` on a default `SizesAndStrides`. */
  method RowMajorScenario() returns (sizes: seq<Int64>, strides: seq<Int64>, ok: bool)
    ensures sizes == [2, 3] && strides == [3, 1] && ok
  {
    var t := new SizesAndStrides();
    t.SetSizes(ArrayRefs.FromContainer([2, 3]));
    ok := t.SetStrides(ArrayRefs.FromContainer([3, 1]));
    sizes, strides := t.Sizes(), t.Strides();
  }
}
