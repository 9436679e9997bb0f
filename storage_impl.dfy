/** c10/core/StorageImpl.h: the storage behind a tensor, holding a data
    pointer, its size in bytes, whether it may be resized, the allocator,
    and flags that make data-pointer accessors throw. */
module StorageImpls {
  import opened Wrappers
  import opened Allocators
  import opened UniqueVoidPtrs

  /** `size_t`. */
  type SizeT = x: int | 0 <= x < 0x1_0000_0000_0000_0000

  /** A `DataPtr` as far as the storage sees it: the owned address and the
      deleter of its `unique_ptr`. */
  datatype DataPtr = DataPtr(data: Address, deleter: Deleter)

  /** `DataPtr::clear()`: `unique_ptr::reset()` nulls the pointer and keeps
      the deleter. */
  function Cleared(p: DataPtr): (r: DataPtr)
    ensures r.data == Null && r.deleter == p.deleter
  {
    p.(data := Null)
  }

  /** The error `throw_data_ptr_access_error()` raises. */
  const DataPtrAccessError: string := "data pointer access error"

  /** The message of the internal assertion on resizable storage. */
  const ResizableNeedsAllocator: string := "For resizable storage, allocator must be provided"

  class StorageImpl {
    var dataPtr: DataPtr
    var sizeBytes: SizeT
    var resizable: bool
    var hasMutableDataPtrCheck: bool
    var throwOnMutableDataPtr: bool
    var throwOnImmutableDataPtr: bool
    var allocator: Allocator?

    /** `refresh_has_data_ptr_check()` has run since the last flag change. */
    ghost predicate Valid()
      reads this
    {
      hasMutableDataPtrCheck == (throwOnMutableDataPtr || throwOnImmutableDataPtr)
    }

    /** The member initialisers of the main constructor, with the three
        flags at their default `false`. */
    constructor Init(size: SizeT, data: DataPtr, alloc: Allocator?, canResize: bool)
      ensures dataPtr == data && sizeBytes == size && resizable == canResize && allocator == alloc
      ensures !hasMutableDataPtrCheck && !throwOnMutableDataPtr && !throwOnImmutableDataPtr
    {
      dataPtr, sizeBytes, resizable, allocator := data, size, canResize, alloc;
      hasMutableDataPtrCheck, throwOnMutableDataPtr, throwOnImmutableDataPtr := false, false, false;
    }

    /** `StorageImpl(use_byte_size_t, size_bytes, data_ptr, allocator,
        resizable)`: resizable storage without an allocator fails the
        internal assertion; otherwise the storage holds the arguments and
        no access check. */
    static method Create(size: SizeT, data: DataPtr, alloc: Allocator?, canResize: bool)
      returns (r: Result<StorageImpl, string>)
      ensures r.Err? <==> canResize && alloc == null
      ensures r.Err? ==> r.error == ResizableNeedsAllocator
      ensures r.Ok? ==> fresh(r.value) && r.value.Valid() && !r.value.hasMutableDataPtrCheck
      ensures r.Ok? ==> (r.value.dataPtr == data && r.value.sizeBytes == size
        && r.value.resizable == canResize && r.value.allocator == alloc)
      ensures r.Ok? ==> !r.value.throwOnMutableDataPtr && !r.value.throwOnImmutableDataPtr
    {
      var s := new StorageImpl.Init(size, data, alloc, canResize);
      if s.resizable && s.allocator == null {
        return Err(ResizableNeedsAllocator);
      }
      s.RefreshHasDataPtrCheck();
      return Ok(s);
    }

    /** `StorageImpl(use_byte_size_t, size_bytes, allocator, resizable)`:
        `fromAllocator` is what `allocator->allocate(size_bytes)` returned. */
    static method CreateAllocated(size: SizeT, alloc: Allocator, fromAllocator: DataPtr, canResize: bool)
      returns (r: Result<StorageImpl, string>)
      ensures r.Ok? && fresh(r.value) && r.value.Valid()
      ensures r.value.dataPtr == fromAllocator && r.value.sizeBytes == size
        && r.value.resizable == canResize && r.value.allocator == alloc
    {
      r := Create(size, fromAllocator, alloc, canResize);
    }

    /** `refresh_has_data_ptr_check()`. */
    method RefreshHasDataPtrCheck()
      modifies this
      ensures Valid()
      ensures hasMutableDataPtrCheck == (throwOnMutableDataPtr || throwOnImmutableDataPtr)
      ensures dataPtr == old(dataPtr) && sizeBytes == old(sizeBytes) && resizable == old(resizable)
      ensures throwOnMutableDataPtr == old(throwOnMutableDataPtr)
      ensures throwOnImmutableDataPtr == old(throwOnImmutableDataPtr) && allocator == old(allocator)
    {
      hasMutableDataPtrCheck := throwOnMutableDataPtr || throwOnImmutableDataPtr;
    }

    /** `reset()`: clears the data pointer and the size. */
    method Reset()
      modifies this
      ensures Valid() == old(Valid()) && dataPtr == Cleared(old(dataPtr)) && sizeBytes == 0
      ensures resizable == old(resizable) && allocator == old(allocator)
      ensures hasMutableDataPtrCheck == old(hasMutableDataPtrCheck)
      ensures throwOnMutableDataPtr == old(throwOnMutableDataPtr)
      ensures throwOnImmutableDataPtr == old(throwOnImmutableDataPtr)
    {
      dataPtr := Cleared(dataPtr);
      sizeBytes := 0;
    }

    /** `release_resources()`: clears the data pointer only. */
    method ReleaseResources()
      modifies this
      ensures Valid() == old(Valid()) && dataPtr == Cleared(old(dataPtr)) && sizeBytes == old(sizeBytes)
      ensures resizable == old(resizable) && allocator == old(allocator)
      ensures hasMutableDataPtrCheck == old(hasMutableDataPtrCheck)
      ensures throwOnMutableDataPtr == old(throwOnMutableDataPtr)
      ensures throwOnImmutableDataPtr == old(throwOnImmutableDataPtr)
    {
      dataPtr := Cleared(dataPtr);
    }

    /** `set_nbytes(size_bytes)`. */
    method SetNbytes(size: SizeT)
      modifies this
      ensures sizeBytes == size && dataPtr == old(dataPtr) && resizable == old(resizable)
      ensures allocator == old(allocator) && hasMutableDataPtrCheck == old(hasMutableDataPtrCheck)
      ensures throwOnMutableDataPtr == old(throwOnMutableDataPtr)
      ensures throwOnImmutableDataPtr == old(throwOnImmutableDataPtr)
    {
      sizeBytes := size;
    }

    /** `data_ptr()`: throws when the check is on and immutable access is
        forbidden. */
    function GetDataPtr(): (r: Result<DataPtr, string>)
      reads this
      ensures Valid() ==> (r.Err? <==> throwOnImmutableDataPtr)
      ensures r.Ok? ==> r.value == dataPtr
      ensures r.Err? ==> r.error == DataPtrAccessError
    {
      if hasMutableDataPtrCheck && throwOnImmutableDataPtr then Err(DataPtrAccessError) else Ok(dataPtr)
    }

    /** `mutable_data_ptr()`: throws when the check is on and mutable access
        is forbidden. */
    function GetMutableDataPtr(): (r: Result<DataPtr, string>)
      reads this
      ensures Valid() ==> (r.Err? <==> throwOnMutableDataPtr)
      ensures r.Ok? ==> r.value == dataPtr
      ensures r.Err? ==> r.error == DataPtrAccessError
    {
      if hasMutableDataPtrCheck && throwOnMutableDataPtr then Err(DataPtrAccessError) else Ok(dataPtr)
    }

    /** `set_data_ptr(data_ptr)`, through
        `set_data_ptr_no_materialize_cow`: stores the new pointer and
        returns the previous one. */
    method SetDataPtr(data: DataPtr) returns (previous: DataPtr)
      modifies this
      ensures Valid() && previous == old(dataPtr) && dataPtr == data
      ensures sizeBytes == old(sizeBytes) && resizable == old(resizable) && allocator == old(allocator)
      ensures throwOnMutableDataPtr == old(throwOnMutableDataPtr)
      ensures throwOnImmutableDataPtr == old(throwOnImmutableDataPtr)
    {
      previous := SetDataPtrNoMaterializeCow(data);
    }

    /** `set_data_ptr_no_materialize_cow(data_ptr)`. */
    method SetDataPtrNoMaterializeCow(data: DataPtr) returns (previous: DataPtr)
      modifies this
      ensures Valid() && previous == old(dataPtr) && dataPtr == data
      ensures sizeBytes == old(sizeBytes) && resizable == old(resizable) && allocator == old(allocator)
      ensures throwOnMutableDataPtr == old(throwOnMutableDataPtr)
      ensures throwOnImmutableDataPtr == old(throwOnImmutableDataPtr)
    {
      previous := dataPtr;
      dataPtr := data;
      RefreshHasDataPtrCheck();
    }

    /** `set_data_ptr_noswap(data_ptr)`: stores the new pointer; the old one
        is destroyed rather than returned. */
    method SetDataPtrNoswap(data: DataPtr)
      modifies this
      ensures Valid() && dataPtr == data
      ensures sizeBytes == old(sizeBytes) && resizable == old(resizable) && allocator == old(allocator)
      ensures throwOnMutableDataPtr == old(throwOnMutableDataPtr)
      ensures throwOnImmutableDataPtr == old(throwOnImmutableDataPtr)
    {
      dataPtr := data;
      RefreshHasDataPtrCheck();
    }

    /** `set_throw_on_mutable_data_ptr()`. */
    method SetThrowOnMutableDataPtr()
      modifies this
      ensures Valid() && throwOnMutableDataPtr && hasMutableDataPtrCheck
      ensures throwOnImmutableDataPtr == old(throwOnImmutableDataPtr)
      ensures dataPtr == old(dataPtr) && sizeBytes == old(sizeBytes)
      ensures resizable == old(resizable) && allocator == old(allocator)
    {
      throwOnMutableDataPtr := true;
      RefreshHasDataPtrCheck();
    }

    /** `set_throw_on_immutable_data_ptr()`. */
    method SetThrowOnImmutableDataPtr()
      modifies this
      ensures Valid() && throwOnImmutableDataPtr && hasMutableDataPtrCheck
      ensures throwOnMutableDataPtr == old(throwOnMutableDataPtr)
      ensures dataPtr == old(dataPtr) && sizeBytes == old(sizeBytes)
      ensures resizable == old(resizable) && allocator == old(allocator)
    {
      throwOnImmutableDataPtr := true;
      RefreshHasDataPtrCheck();
    }

    /** `set_allocator(allocator)`: no check, even on resizable storage. */
    method SetAllocator(alloc: Allocator?)
      modifies this
      ensures allocator == alloc && dataPtr == old(dataPtr) && sizeBytes == old(sizeBytes)
      ensures resizable == old(resizable) && hasMutableDataPtrCheck == old(hasMutableDataPtrCheck)
      ensures throwOnMutableDataPtr == old(throwOnMutableDataPtr)
      ensures throwOnImmutableDataPtr == old(throwOnImmutableDataPtr)
    {
      allocator := alloc;
    }

    /** `set_resizable(resizable)`: making storage resizable without an
        allocator fails the internal assertion and changes nothing. */
    method SetResizable(canResize: bool) returns (r: Result<(), string>)
      modifies this
      ensures r.Err? <==> canResize && allocator == null
      ensures r.Err? ==> r.error == ResizableNeedsAllocator && resizable == old(resizable)
      ensures r.Ok? ==> resizable == canResize
      ensures allocator == old(allocator) && dataPtr == old(dataPtr) && sizeBytes == old(sizeBytes)
      ensures hasMutableDataPtrCheck == old(hasMutableDataPtrCheck)
      ensures throwOnMutableDataPtr == old(throwOnMutableDataPtr)
      ensures throwOnImmutableDataPtr == old(throwOnImmutableDataPtr)
    {
      if canResize && allocator == null {
        return Err(ResizableNeedsAllocator);
      }
      resizable := canResize;
      return Ok(());
    }
  }

  /** Forbidding mutable access leaves read access working; forbidding
      read access as well makes both fail; swapping the data pointer hands
      back the previous one, and `reset` clears pointer and size. */
  method AccessFlagsScenario(alloc: Allocator, first: DataPtr, second: DataPtr)
    returns (readAfterMutableBan: bool, writeAfterMutableBan: bool, readAfterBoth: bool,
             previous: DataPtr, sizeAfterReset: nat, dataAfterReset: Address)
    ensures readAfterMutableBan && !writeAfterMutableBan && !readAfterBoth
    ensures previous == first && sizeAfterReset == 0 && dataAfterReset == Null
  {
    var r := StorageImpl.Create(64, first, alloc, true);
    var s := r.value;
    s.SetThrowOnMutableDataPtr();
    readAfterMutableBan := s.GetDataPtr().Ok?;
    writeAfterMutableBan := s.GetMutableDataPtr().Ok?;
    s.SetThrowOnImmutableDataPtr();
    readAfterBoth := s.GetDataPtr().Ok?;
    previous := s.SetDataPtr(second);
    s.Reset();
    sizeAfterReset, dataAfterReset := s.sizeBytes, s.dataPtr.data;
  }
}
