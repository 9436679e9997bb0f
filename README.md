# c10 core in Dafny

This project models the core of `c10`, the small tensor-runtime library of mytorch (a reduced PyTorch), and proves properties of that model. It covers:

- the dispatch-key enum and its 64-bit key set, including the table that maps a key set to an operator-table slot;
- the bit-mask utilities;
- the intrusive reference-counting smart pointers (`intrusive_ptr`, `weak_intrusive_ptr`) and `MaybeOwned`;
- `ArrayRef` views, and the inline size/stride storage of a tensor;
- devices, device types and the device-string parser;
- scalar types and the binary16 to binary32 conversion of `Half`;
- the global allocator registry, `UniqueVoidPtr`, and `StorageImpl`.

There is one Dafny module per source file. `Wrappers` holds `Option` and `Result`. `Words` reads `nat` values as machine words: bit `i`, and bitwise and/or/xor.

The model's forms:

- Operations that only compute become functions with named results. The lemmas beside them state their laws.
- Objects whose fields the C++ updates in place become classes. These are the pointer targets and handles, `MaybeOwned`, `SizesAndStrides`, `Device`, `UniqueVoidPtr`, `StorageImpl` and the allocator registry. Their methods state the whole new state.
- Loops in the source become `while` loops with invariants. These are the key-set constructors from a list, the per-backend key count, and the offset table initialiser.
- A failed `TORCH_CHECK` is an `Err` result. It carries the check's message arguments, joined as `c10::str` joins them, and the empty string for a check without them. A failing check inside a handle constructor or assignment is an `ok == false` result instead, with the counts the unwinding leaves.
- `size_t`/`uint32_t`/`int8_t`/`uint8_t` narrowing and wrap-around is written out where a result depends on it.

## Model

| member | source | states |
|---|---|---|
| DispatchKeys.Constants | c10/core/DispatchKey.h:79-96 | there are 7 functionality keys and 3 backends, and the full backend mask is 7 |
| DispatchKeys.NumPerBackendFunctionalityKeys | c10/core/DispatchKey.h:85-93 | the counting loop finds exactly the per-backend functionalities below `EndOfFunctionlityKeys`, which is 2 (Dense, AutogradFunctionality) |
| DispatchKeys.ToBackendComponent | c10/core/DispatchKey.h:98-114 | a key has a valid backend exactly when it is a runtime per-backend key |
| DispatchKeys.ToFunctionalityKey | c10/core/DispatchKey.h:116-126 | the result is a functionality key, and a functionality key maps to itself |
| DispatchKeys.IsPerBackendFunctionalityKey | c10/core/DispatchKey.h:71-77 | a per-backend functionality lies strictly between Undefined and `EndOfFunctionlityKeys` |
| DispatchKeys.ToRuntimePerBackendFunctionalityKey | c10/core/DispatchKey.h:130-145 | a non-per-backend functionality gives Undefined; a per-backend functionality with a valid backend gives a runtime key |
| DispatchKeys.RuntimeKeySplits | c10/core/DispatchKey.h:98-145 | splitting the runtime key built from (functionality, backend) returns that functionality and that backend |
| DispatchKeys.RuntimeKeyJoins | c10/core/DispatchKey.h:98-145 | every runtime key is rebuilt from its own functionality and backend (the other direction of the bijection) |
| DispatchKeys.FunctionalityOfRanges | c10/core/DispatchKey.h:116-126 | the dense range maps to Dense, the autograd range to AutogradFunctionality, alias keys to Undefined |
| DispatchKeys.NoBackendOutsideRuntimeRanges | c10/core/DispatchKey.h:98-114 | the `StartOf…` marker keys have no backend |
| DispatchKeyNames.BackendComponentOfDeviceType | c10/core/DispatchKey.cpp:7-16 | a device type has a backend bit exactly when it is a valid device type |
| DispatchKeyNames.BackendComponentToString | c10/core/DispatchKey.cpp:49-60 | "InvalidBit" exactly for a value that is not a backend |
| DispatchKeyNames.NamedKeyString | c10/core/DispatchKey.cpp:18-47 | a key has its own name exactly when it is a functionality key, the EndOf marker excluded, or an alias key |
| DispatchKeyNames.DispatchKeyToString | c10/core/DispatchKey.cpp:18-47 | a named key prints its name; any other key prints its functionality's name, a space, and its backend's name |
| DispatchKeyNames.RuntimeKeyString | c10/core/DispatchKey.cpp:18-47 | a runtime key prints as its functionality's name, a space, then its backend's name |
| DispatchKeyNames.DenseCudaString | c10/core/DispatchKey.cpp:42-46 | `DenseCUDA` prints as "Dense CUDABit" |
| DispatchKeySets.EmptySet | c10/core/DispatchKeySet.h:45 | the empty set has no bit |
| DispatchKeySets.Full | c10/core/DispatchKeySet.h:47-48 | the full set holds every backend bit and every functionality bit |
| DispatchKeySets.FullAfter | c10/core/DispatchKeySet.h:50-55 | the set holds exactly the bits below `num_backends` plus the key's functionality minus one: when that functionality is not Undefined, every backend and the functionalities below it |
| DispatchKeySets.FullAfterBelowKey | c10/core/DispatchKeySet.h:50-55 | membership form of `FULL_AFTER`: every backend, and every functionality strictly below the key |
| DispatchKeySets.FromBackend | c10/core/DispatchKeySet.h:59-65 | a valid backend gives the set holding exactly its bit; InvalidBit gives the empty set |
| DispatchKeySets.FromKey | c10/core/DispatchKeySet.h:67-85 | Undefined and alias keys give the empty set; a functionality key gives its own bit; a runtime key gives its functionality bit and its backend bit |
| DispatchKeySets.RuntimeKeyBits | c10/core/DispatchKeySet.h:75-81 | a runtime key's set has exactly two bits: its backend's and its functionality's |
| DispatchKeySets.UnionOfKeys | c10/core/DispatchKeySet.h:87-99 | the set built from a key list holds a bit exactly when some key in the list contributes it |
| DispatchKeySets.KeysToRepr | c10/core/DispatchKeySet.h:87-99 | the constructor's loop over the list computes the word of that union |
| DispatchKeySets.UnionOfBackends | c10/core/DispatchKeySet.h:90-108 | the set built from a backend list holds a bit exactly when some listed backend contributes it |
| DispatchKeySets.BackendBitsToRepr | c10/core/DispatchKeySet.h:90-108 | the loop over the backend list computes the word of that union |
| DispatchKeySets.UnionOfTwoKeys | c10/core/DispatchKeySet.h:87-99 | the set of a two-key list is the union of the two single-key sets |
| DispatchKeySets.UnionOfTwoBackends | c10/core/DispatchKeySet.h:90-108 | the set of a two-backend list is the union of the two single-backend sets |
| DispatchKeySets.Has | c10/core/DispatchKeySet.h:110-113 | Undefined fails the check; otherwise the answer is true exactly when every bit of the key's set is in the set |
| DispatchKeySets.HasBackend | c10/core/DispatchKeySet.h:115-117 | true exactly when the backend's bit is set (always true for InvalidBit, whose set is empty) |
| DispatchKeySets.HasAllIsSubset | c10/core/DispatchKeySet.h:119-134 | `has_all` is bitwise subset, and `isSupersetOf` agrees with it |
| DispatchKeySets.HasAny | c10/core/DispatchKeySet.h:123-130 | an argument holding a backend bit together with the Dense or AutogradFunctionality bit fails the check, which has no message; otherwise true exactly when the two sets share a bit |
| DispatchKeySets.Union | c10/core/DispatchKeySet.h:136-138 | a bit is in the union exactly when it is in either set |
| DispatchKeySets.Intersect | c10/core/DispatchKeySet.h:140-142 | a bit is in the intersection exactly when it is in both sets |
| DispatchKeySets.Minus | c10/core/DispatchKeySet.h:144-148 | set difference that never removes a backend bit |
| DispatchKeySets.SymmetricDifference | c10/core/DispatchKeySet.h:150-152 | a bit is in the result exactly when it is in one set but not both |
| DispatchKeySets.Extensionality | c10/core/DispatchKeySet.h:154-160 | two sets with the same bits are equal, so `==` is set equality |
| DispatchKeySets.UnionHasAll | c10/core/DispatchKeySet.h:119-138 | a union contains both operands |
| DispatchKeySets.Idempotent | c10/core/DispatchKeySet.h:136-142 | union and intersection with oneself return the set |
| DispatchKeySets.MinusThenUnion | c10/core/DispatchKeySet.h:136-148 | removing `b` and adding `b` back gives `a` united with `b` |
| DispatchKeySets.Add | c10/core/DispatchKeySet.h:162-168 | adding a key sets exactly the bits of the key's set |
| DispatchKeySets.Remove | c10/core/DispatchKeySet.h:170-173 | removing a key clears the key's functionality bits and keeps every backend bit |
| DispatchKeySets.RemoveIsMinus | c10/core/DispatchKeySet.h:144-173 | `remove(k)` is the difference with the key's set |
| DispatchKeySets.RemoveBackend | c10/core/DispatchKeySet.h:175-178 | clears exactly the backend's bit |
| DispatchKeySets.IsEmpty | c10/core/DispatchKeySet.h:180-182 | true exactly when no bit is set |
| DispatchKeySets.IndexOfHighestBit | c10/core/DispatchKeySet.h:188-193 | one past the highest set bit: 0 for the empty set, and no bit at or above it |
| DispatchKeySets.HighestBitAt | c10/core/DispatchKeySet.h:188-193 | a set whose top bit is `p` has highest-bit index `p + 1` |
| DispatchKeySets.HighestFunctionalityKey | c10/core/DispatchKeySet.h:195-201 | the highest functionality present, or Undefined when there is none |
| DispatchKeySets.HighestBackendKey | c10/core/DispatchKeySet.h:203-210 | the highest backend present, or InvalidBit when there is none |
| DispatchKeySets.HighestBackendAt | c10/core/DispatchKeySet.h:203-210 | a set whose highest backend bit is `b`'s has `b` as its highest backend |
| DispatchKeySets.HighestOfFunctionalityKey | c10/core/DispatchKeySet.h:195-210 | the set of a functionality key has that key as its highest functionality and no backend |
| DispatchKeySets.HighestOfRuntimeKey | c10/core/DispatchKeySet.h:195-210 | the set of a runtime key gives back that key's functionality and backend |
| DispatchKeySets.GetBackendIndex | c10/core/DispatchKeySet.h:235-237 | the index of the highest backend, counted from 0, and 0 when there is none |
| DispatchKeySets.MaskedBackendIndex | c10/core/DispatchKeySet.h:217-224 | masking with the entry's mask and dropping the first bit gives the backend index for per-backend entries, and 0 for the others |
| DispatchKeySets.GetDispatchTableIndexForDispatchKeySet | c10/core/DispatchKeySet.h:212-225 | fails past the functionality range; otherwise the entry's offset plus the backend index under the entry's mask |
| DispatchKeySets.TableIndexOfFunctionalityKey | c10/core/DispatchKeySet.h:212-225 | a plain functionality key's set maps to that functionality's table offset |
| DispatchKeySets.TableIndexOfRuntimeKey | c10/core/DispatchKeySet.h:212-225 | a runtime key's set maps to its functionality's table offset (1 for Dense, 6 for AutogradFunctionality) plus its backend index |
| DispatchKeySets.TableIndexOfRuntimeEntries | c10/core/DispatchKeySet.h:212-225 | the table is a bijection: the `j`-th runtime entry, in table order, lands in slot `j` |
| DispatchKeySets.Increment | c10/core/DispatchKeySet.cpp:35-42 | the bounds checks, which have no message, pass exactly inside the iteration range, and the iterator is left unchanged |
| DispatchKeySets.MakeIterator | c10/core/DispatchKeySet.h:257-274 | construction checks the functionality and backend start positions and sets the end markers; a start below `num_backends` fails with "num_backends=3 next_functionality_=" and the start |
| DispatchKeySets.IteratorBelowBackendsMessage | c10/core/DispatchKeySet.h:266-271 | starting at functionality 1 fails with "num_backends=3 next_functionality_=1" |
| DispatchKeySets.BeginNeverReachesEnd | c10/core/DispatchKeySet.h:324-330 | begin and end differ, and incrementing begin leaves it where it was |
| DispatchKeySets.Deref | c10/core/DispatchKeySet.h:298-313 | dereferencing gives the functionality key itself, or the runtime key built from it and the current backend |
| DispatchKeySetTable.Table | c10/core/DispatchKeySet.h:29-37 | one offset/mask entry per functionality key |
| DispatchKeySetTable.InitializeFunctionalityOffsetsAndMasks | c10/core/DispatchKeySet.cpp:6-31 | the loop builds exactly the table, and its final check passes exactly when the last offset is `num_runtime_entries - 1`; otherwise it fails with "num_runtime_entries: N last offset: M" |
| DispatchKeySetTable.InitializeScenario | c10/core/DispatchKeySet.cpp:23-29 | 11 runtime entries pass the check; 5 fail with "num_runtime_entries: 5 last offset: 10" |
| DispatchKeySetTable.MaskOfEntry | c10/core/DispatchKeySet.cpp:19 | per-backend functionalities get the full backend mask; the others get 0 |
| DispatchKeySetTable.TableValues | c10/core/DispatchKeySet.cpp:11-22 | the offsets are 0, 1, 4, 5, 6, 9, 10 |
| DispatchKeySetTable.Entry | c10/core/DispatchKeySet.cpp:11-22 | an entry has a non-zero mask exactly for a per-backend functionality |
| DispatchKeySetTable.EntryOffsets | c10/core/DispatchKeySet.cpp:11-22 | the offset of functionality `i` is `i` plus `num_backends - 1` for each per-backend functionality below it |
| DispatchKeySetTable.PerBackendCounts | c10/core/DispatchKey.h:71-77 | the number of per-backend functionalities below 0 to 6 is 0, 0, 1, 1, 1, 2, 2 |
| DispatchKeySetTable.OffsetsIncrease | c10/core/DispatchKeySet.cpp:17-18 | offsets strictly increase |
| DispatchKeySetTable.SlotsDoNotOverlap | c10/core/DispatchKeySet.cpp:17-21 | each entry takes one slot, or one per backend, and the next entry starts right after |
| DispatchKeySetTests.KeySetTest1 | test/c10/dispatch_keyset_test.cpp:25-46 | the members, `has`, `has_all` and `has_any` answers of test1 |
| DispatchKeySetTests.Test1Reprs | test/c10/dispatch_keyset_test.cpp:26-33 | `keys_to_repr({AutogradFunctionality})` is the repr of the single-key set, and `backend_bits_to_repr({CUDABit})` that of the single-backend set |
| DispatchKeySetTests.SingleKeyList | test/c10/dispatch_keyset_test.cpp:27-29 | the union of a one-key list is that key's set |
| DispatchKeySetTests.SingleBackendList | test/c10/dispatch_keyset_test.cpp:31-33 | the union of a one-backend list is that backend's set |
| DispatchKeySetTests.Test1Members | test/c10/dispatch_keyset_test.cpp:35-45 | the bits of test1's set |
| DispatchKeySetTests.Test1Queries | test/c10/dispatch_keyset_test.cpp:35-45 | test1's `has` results |
| DispatchKeySetTests.Test1QueryMembers | test/c10/dispatch_keyset_test.cpp:35-45 | the key sets test1 queries with |
| DispatchKeySetTests.Test1HasAll | test/c10/dispatch_keyset_test.cpp:35-45 | test1's `has_all` results |
| DispatchKeySetTests.Test1HasAny | test/c10/dispatch_keyset_test.cpp:35-45 | test1's `has_any` results |
| DispatchKeySetTests.KeySetTest2 | test/c10/dispatch_keyset_test.cpp:48-66 | the highest functionality and backend of test2's sets |
| DispatchKeySetTests.Test2Members | test/c10/dispatch_keyset_test.cpp:48-66 | the bits of test2's sets |
| DispatchKeySetTests.Test2HighestBit | test/c10/dispatch_keyset_test.cpp:48-66 | test2's highest-bit indices |
| DispatchKeySetTests.Test2HighestBackend | test/c10/dispatch_keyset_test.cpp:48-66 | test2's highest backends |
| DispatchKeySetTests.KeySetTest3 | test/c10/dispatch_keyset_test.cpp:68-71 | the table index of `{DenseCPU}` |
| DispatchKeySetTests.DenseCpuSet | test/c10/dispatch_keyset_test.cpp:68-71 | the bits of `{DenseCPU}` |
| DispatchKeySetTests.DenseCpuSlot | test/c10/dispatch_keyset_test.cpp:68-71 | `DenseCPU`'s slot in the table |
| BitsUtil.MaskTrailingOnes | c10/util/BitsUtil.h:16-22 | `maskTrailingOnes(n)` is 2^n - 1, including n = 0 and n = width |
| BitsUtil.OnesShiftedDown | c10/util/BitsUtil.h:21 | shifting the all-ones word of width `w` right by `w - n` leaves 2^n - 1 |
| BitsUtil.MaskLeadingOnes | c10/util/BitsUtil.h:24-27 | the mask fits in the word |
| BitsUtil.MaskLeadingOnesValue | c10/util/BitsUtil.h:24-27 | `maskLeadingOnes(n)` is the top `n` bits: 2^w - 2^(w-n) |
| BitsUtil.MaskTrailingZeros | c10/util/BitsUtil.h:29-32 | the mask fits in the word |
| BitsUtil.MaskTrailingZerosValue | c10/util/BitsUtil.h:29-32 | the complement of the trailing-ones mask, 2^w - 2^n |
| BitsUtil.MaskLeadingZerosValue | c10/util/BitsUtil.h:34-37 | the leading-zeros mask is the complement of the leading-ones mask |
| BitsUtil.MaskLeadingZeros | c10/util/BitsUtil.h:34-37 | `maskLeadingZeros(n)` is 2^(w-n) - 1, the low `w - n` bits |
| BitsUtil.TrailingBitsExamples | test/c10/trailing_bits_test.cpp:16-54 | the four masks at n = 10, as the test checks them |
| BitsUtil.LowestSetBit | c10/util/BitsUtil.h:47-59 | the position of the lowest set bit: the value is divisible by 2^r and the quotient is odd |
| BitsUtil.CountTrailingZeros | c10/util/BitsUtil.h:39-67 | 0 gives the width; otherwise the number of trailing zero bits |
| BitsUtil.FindFirstSet | c10/util/BitsUtil.h:69-75 | the lowest set bit's index; for 0, all ones under ZB_Max and the width otherwise |
| IntrusivePtrs.WrapIsModular | c10/util/intrusive_ptr.h:57-71 | the counters' increment and decrement wrap modulo 2^32 and are mutually inverse |
| IntrusivePtrs.Adopt | c10/util/intrusive_ptr.h:135-144 | adopting a target succeeds exactly when both counts are 0, and leaves both at 1 |
| IntrusivePtrs.RetainStrong | c10/util/intrusive_ptr.h:106-114 | the check passes exactly when the strong count was not 0; nothing else changes |
| IntrusivePtrs.RetainWeak | c10/util/intrusive_ptr.h:409-417 | the check passes exactly when the weak count was not 0; nothing else changes |
| IntrusivePtrs.TryLock | c10/util/intrusive_ptr.h:537-551 | locking succeeds exactly when the target is not expired, and then adds a strong count; otherwise nothing changes |
| IntrusivePtrs.MakeEstablishes | c10/util/intrusive_ptr.h:135-144 | `make` yields counts 1/1 consistent with one strong handle and no weak handle |
| IntrusivePtrs.RetainStrongKeeps | c10/util/intrusive_ptr.h:106-163 | copying a live strong handle keeps the counters consistent with one more strong handle |
| IntrusivePtrs.ResetStrongKeeps | c10/util/intrusive_ptr.h:116-133 | dropping a strong handle keeps consistency; the target is deleted exactly when it was the last handle, and resources are released exactly when weak handles remain |
| IntrusivePtrs.RetainWeakKeeps | c10/util/intrusive_ptr.h:409-432 | creating a weak handle keeps the counters consistent with one more weak handle |
| IntrusivePtrs.ResetWeakKeeps | c10/util/intrusive_ptr.h:419-424 | dropping a weak handle keeps consistency; the target is deleted exactly when it was the last handle of any kind |
| IntrusivePtrs.LockKeeps | c10/util/intrusive_ptr.h:533-551 | a weak handle locks exactly when strong handles remain, adding one strong handle |
| IntrusivePtrs.ReclaimOfReleased | c10/util/intrusive_ptr.h:261-271 | reclaiming a pointer released from a live handle always passes the check |
| IntrusivePtrs.ReclaimRejects | c10/util/intrusive_ptr.h:261-271 | the exact counter states the two reclaim checks reject |
| IntrusivePtrs.SelfAssignmentKeepsCounts | c10/util/intrusive_ptr.h:177-191 | copy-assigning a live handle to itself (retain, then reset) restores the counters |
| IntrusivePtrs.WeakResetAsWrittenDeletesLiveTarget | c10/util/intrusive_ptr.h:505-507 | with the source's weak `reset()`, destroying the handle afterwards deletes a target that still has strong handles |
| IntrusivePtrs.Test3Trace | test/c10/intrusive_ptr_test.cpp:78-101 | test3's lock/reset sequence: the counts after each step, and the final lock failing |
| IntrusivePtrs.ReclaimTrace | test/c10/intrusive_ptr_test.cpp:122-150 | the counts that reclaim and reclaim_copy see through strong and weak handles |
| IntrusivePtrs.Target.constructor | c10/util/intrusive_ptr.h:35-45 | a new target has both counts 0 |
| IntrusivePtrs.IntrusivePtr.Null | c10/util/intrusive_ptr.h:147-151 | the default handle is null |
| IntrusivePtrs.IntrusivePtr.Raw | c10/util/intrusive_ptr.h:153-154 | wraps the target without touching its counts |
| IntrusivePtrs.IntrusivePtr.Retain | c10/util/intrusive_ptr.h:106-114 | on a non-null target, the counts follow `RetainStrong` |
| IntrusivePtrs.IntrusivePtr.Destroy | c10/util/intrusive_ptr.h:116-158 | the destructor moves the target's counts by `ResetStrong` |
| IntrusivePtrs.IntrusivePtr.FromNew | c10/util/intrusive_ptr.h:135-144 | construction from a new target succeeds exactly when `Adopt` does; on failure the temporary's destructor runs |
| IntrusivePtrs.IntrusivePtr.Make | c10/util/intrusive_ptr.h:279-282 | a fresh target held by a fresh handle, counts 1/1 |
| IntrusivePtrs.IntrusivePtr.Copy | c10/util/intrusive_ptr.h:160-163 | the copy shares the target, whose counts follow `RetainStrong` |
| IntrusivePtrs.IntrusivePtr.Move | c10/util/intrusive_ptr.h:193-196 | the new handle takes the target and the source handle becomes null; the counts do not change |
| IntrusivePtrs.IntrusivePtr.Swap | c10/util/intrusive_ptr.h:247-249 | the two handles exchange targets |
| IntrusivePtrs.IntrusivePtr.CopyAssign | c10/util/intrusive_ptr.h:175-191 | copy, swap and destroy the temporary: the handle takes `rhs`'s target; the new target gains a count and the old one is reset (self-assignment keeps the counts) |
| IntrusivePtrs.IntrusivePtr.MoveAssign | c10/util/intrusive_ptr.h:208-222 | the handle takes `rhs`'s target and `rhs` becomes null; the old target is reset, and self-move changes nothing |
| IntrusivePtrs.IntrusivePtr.Reset | c10/util/intrusive_ptr.h:242-245 | the old target is reset and the handle becomes null |
| IntrusivePtrs.IntrusivePtr.Defined | c10/util/intrusive_ptr.h:251-253 | true exactly when the handle has a target |
| IntrusivePtrs.IntrusivePtr.Get | c10/util/intrusive_ptr.h:238-240 | the target held, null exactly when the handle is not defined |
| IntrusivePtrs.IntrusivePtr.RefUseCount | c10/util/intrusive_ptr.h:284-290 | 0 for a null handle, otherwise the target's strong count |
| IntrusivePtrs.IntrusivePtr.WeakUseCount | c10/util/intrusive_ptr.h:292-299 | 0 for a null handle, otherwise the target's weak count |
| IntrusivePtrs.IntrusivePtr.Equals | c10/util/intrusive_ptr.h:317-322 | equal exactly when `get()` agrees; a handle equals itself, and equal handles are both null or both defined |
| IntrusivePtrs.IntrusivePtr.EqualsNull | c10/util/intrusive_ptr.h:324-336 | `== nullptr` exactly when the handle is not defined |
| IntrusivePtrs.IntrusivePtr.NotEquals | c10/util/intrusive_ptr.h:338-342 | the negation of `==` |
| IntrusivePtrs.IntrusivePtr.Release | c10/util/intrusive_ptr.h:255-259 | returns the target, nulls the handle, and leaves the counts alone |
| IntrusivePtrs.IntrusivePtr.Reclaim | c10/util/intrusive_ptr.h:261-271 | succeeds exactly when the pointer is null or passes the reclaim check |
| IntrusivePtrs.IntrusivePtr.ReclaimCopy | c10/util/intrusive_ptr.h:273-277 | reclaim, then retain: on success the target gains one strong count |
| IntrusivePtrs.IntrusivePtr.NotEqualsNullAsWritten | c10/util/intrusive_ptr.h:344-356 | the source's `!= nullptr` is false for every handle |
| IntrusivePtrs.IntrusivePtr.NotEqualsNull | c10/util/intrusive_ptr.h:344-356 | the intended `!= nullptr`: true exactly when the handle is defined |
| IntrusivePtrs.WeakIntrusivePtr.Raw | c10/util/intrusive_ptr.h:426 | wraps the target without touching its counts |
| IntrusivePtrs.WeakIntrusivePtr.Retain | c10/util/intrusive_ptr.h:409-417 | on a non-null target, the counts follow `RetainWeak` |
| IntrusivePtrs.WeakIntrusivePtr.Destroy | c10/util/intrusive_ptr.h:419-436 | the destructor moves the counts by `ResetWeak` |
| IntrusivePtrs.WeakIntrusivePtr.FromStrong | c10/util/intrusive_ptr.h:429-432 | a weak handle on the strong handle's target whose weak count follows `RetainWeak`; when the check fails, the destructor of the completed delegated constructor resets that count again |
| IntrusivePtrs.WeakIntrusivePtr.Copy | c10/util/intrusive_ptr.h:438-441 | the copy shares the target, whose counts follow `RetainWeak` |
| IntrusivePtrs.WeakIntrusivePtr.Move | c10/util/intrusive_ptr.h:473-476 | the new handle takes the target and the source handle becomes null |
| IntrusivePtrs.WeakIntrusivePtr.Swap | c10/util/intrusive_ptr.h:509-511 | the two handles exchange targets |
| IntrusivePtrs.WeakIntrusivePtr.CopyAssign | c10/util/intrusive_ptr.h:453-471 | the handle takes `rhs`'s target and the weak counts move; self-assignment changes nothing |
| IntrusivePtrs.WeakIntrusivePtr.MoveAssign | c10/util/intrusive_ptr.h:488-503 | the handle takes `rhs`'s target and `rhs` becomes null; the old target's weak count drops |
| IntrusivePtrs.WeakIntrusivePtr.ResetAsWritten | c10/util/intrusive_ptr.h:505-507 | as written: the weak count drops but the handle keeps its target |
| IntrusivePtrs.WeakIntrusivePtr.Reset | c10/util/intrusive_ptr.h:505-507 | corrected: the weak count drops and the handle becomes null |
| IntrusivePtrs.WeakIntrusivePtr.Lock | c10/util/intrusive_ptr.h:537-551 | a strong handle on the target exactly when `TryLock` succeeds, otherwise a null handle |
| IntrusivePtrs.WeakIntrusivePtr.RefUseCount | c10/util/intrusive_ptr.h:517-523 | 0 for a null handle, otherwise the target's strong count |
| IntrusivePtrs.WeakIntrusivePtr.WeakUseCount | c10/util/intrusive_ptr.h:525-531 | 0 for a null handle, otherwise the target's weak count |
| IntrusivePtrs.WeakIntrusivePtr.Expired | c10/util/intrusive_ptr.h:533-535 | expired exactly when the handle is null or locking it would fail |
| IntrusivePtrs.WeakIntrusivePtr.UnsafeGetTarget | c10/util/intrusive_ptr.h:513-515 | the raw target, null for a null handle |
| IntrusivePtrs.WeakIntrusivePtr.Equals | c10/util/intrusive_ptr.h:601-607 | a handle equals itself, and two handles are equal exactly when their targets are |
| IntrusivePtrs.WeakIntrusivePtr.Release | c10/util/intrusive_ptr.h:553-557 | returns the target and nulls the handle without touching the counts |
| IntrusivePtrs.WeakIntrusivePtr.Reclaim | c10/util/intrusive_ptr.h:559-575 | succeeds exactly when the pointer is null or passes the weak reclaim check |
| IntrusivePtrs.WeakIntrusivePtr.ReclaimCopy | c10/util/intrusive_ptr.h:577-581 | reclaim, then retain: on success the target gains one weak count |
| IntrusivePtrs.CreateBorrow | c10/util/intrusive_ptr.h:370-372 | a borrow is a reclaimed handle on the same target, and the counts do not change |
| IntrusivePtrs.MaybeOwnedBorrowScenario | test/c10/intrusive_ptr_test.cpp:152-158 | a borrow of a fresh handle reports one strong and one weak use |
| IntrusivePtrs.AssignBorrow | c10/util/intrusive_ptr.h:374-377 | the borrowing handle takes the source's target when the reclaim check passes |
| IntrusivePtrs.DestroyBorrow | c10/util/intrusive_ptr.h:379-381 | destroying a borrow releases it without touching the counts |
| IntrusivePtrs.UseCountsOfStrongHandle | c10/util/intrusive_ptr.h:284-298 | through a live strong handle, `use_count` is the number of strong handles and `weak_use_count` is the number of weak handles plus one |
| IntrusivePtrs.NotEqualsNullQuirk | c10/util/intrusive_ptr.h:344-356 | on a defined handle the source's `!= nullptr` says false and the corrected comparison says true |
| IntrusivePtrs.Test3Scenario | test/c10/intrusive_ptr_test.cpp:78-101 | test3 on handles: two locks succeed, the third fails, and the final counts |
| IntrusivePtrs.OperatorScenario | test/c10/intrusive_ptr_test.cpp:103-120 | the results of the test's `==`/`!=` comparisons between handles |
| IntrusivePtrs.ReclaimScenario | test/c10/intrusive_ptr_test.cpp:122-134 | the use counts after release, reclaim and reclaim_copy |
| IntrusivePtrs.WeakReclaimScenario | test/c10/intrusive_ptr_test.cpp:136-150 | the same for weak handles |
| IntrusivePtrs.WeakFromReclaimedFreshScenario | c10/util/intrusive_ptr.h:409-432 | a strong handle reclaimed on a fresh target (0/0) gives a weak handle whose retain check fails, and the target ends deleted with counts 0/0 |
| MaybeOwneds.MaybeOwned.Default | c10/util/maybe_owned.h:71 | the default object is borrowed, has a null borrow, and fails the debug validity check |
| MaybeOwneds.MaybeOwned.Borrowed | c10/util/maybe_owned.h:60-61 | a borrowed object dereferences to the borrowed value |
| MaybeOwneds.MaybeOwned.Owned | c10/util/maybe_owned.h:63-68 | an owned object holds the value and dereferences to it |
| MaybeOwneds.MaybeOwned.Copy | c10/util/maybe_owned.h:73-80 | the copy has the same kind, the same borrow, or a copy of the owned value |
| MaybeOwneds.MaybeOwned.Move | c10/util/maybe_owned.h:108-118 | the new object takes the borrow or the owned value; a moved-from owned source holds the moved-from value |
| MaybeOwneds.MaybeOwned.CopyAssign | c10/util/maybe_owned.h:82-106 | the object ends with `rhs`'s kind and content; an owned value is destroyed exactly once when an owned object takes a borrow, an owned object copy-assigns an owned `rhs` in place, and self-assignment changes nothing |
| MaybeOwneds.MaybeOwned.MoveAssign | c10/util/maybe_owned.h:120-148 | the object takes `rhs`'s kind and content; an owned value it held is destroyed once when the kind changes |
| MaybeOwneds.MaybeOwned.Take | c10/util/maybe_owned.h:190-196 | `*std::move(m)` yields the dereferenced value, leaving the moved-from value in an owned object |
| MaybeOwneds.MaybeOwned.Destroy | c10/util/maybe_owned.h:164-172 | the destructor destroys the owned value exactly when the object is owned |
| MaybeOwneds.Test1Scenario | test/maybe_owned_test.cpp:27-46 | borrowed, copied and owned objects see the same value |
| MaybeOwneds.Test3Scenario | test/maybe_owned_test.cpp:67-77 | an object copy-assigned from a borrowed one is borrowed |
| MaybeOwneds.Test5Scenario | test/maybe_owned_test.cpp:79-90 | an object copy-assigned from an owned one is owned |
| MaybeOwneds.Test6Scenario | test/maybe_owned_test.cpp:92-101 | an object move-assigned from a borrowed one is borrowed |
| MaybeOwneds.Test7Scenario | test/maybe_owned_test.cpp:103-114 | an object move-assigned from an owned one is owned |
| ArrayRefs.Default | c10/util/ArrayRef.h:36 | the default view is null and empty |
| ArrayRefs.OfOne | c10/util/ArrayRef.h:38 | a one-element view on that element |
| ArrayRefs.FromPointer | c10/util/ArrayRef.h:40-45 | a null pointer with nonzero length fails the check; otherwise the view covers exactly those `length` elements |
| ArrayRefs.FromRange | c10/util/ArrayRef.h:47-52 | the view covers exactly the elements between the two pointers |
| ArrayRefs.FromContainer | c10/util/ArrayRef.h:55-67 | the view of a vector shows its elements |
| ArrayRefs.FromInitializerList | c10/util/ArrayRef.h:69-73 | the view shows the list's elements and is null exactly when the list is empty |
| ArrayRefs.IsEmpty | c10/util/ArrayRef.h:99-101 | true exactly when the view has no elements |
| ArrayRefs.Front | c10/util/ArrayRef.h:111-115 | an empty view fails; otherwise the first element |
| ArrayRefs.Back | c10/util/ArrayRef.h:117-121 | an empty view fails; otherwise the last element |
| ArrayRefs.Index | c10/util/ArrayRef.h:139-141 | `operator[]` is the element at that position |
| ArrayRefs.At | c10/util/ArrayRef.h:143-146 | fails exactly when the index is out of range; otherwise the element |
| ArrayRefs.Vec | c10/util/ArrayRef.h:157-159 | the vector has the view's elements in order |
| ArrayRefs.ElementsEqual | c10/util/ArrayRef.h:123-125 | `std::equal` over equal lengths is sequence equality |
| ArrayRefs.EqualsRef | c10/util/ArrayRef.h:123-125 | `equals` is true exactly when the element sequences are equal |
| ArrayRefs.Eq | c10/util/ArrayRef.h:216-219 | `==` is element-sequence equality |
| ArrayRefs.Ne | c10/util/ArrayRef.h:221-224 | `!=` is element-sequence inequality |
| ArrayRefs.VecEq | c10/util/ArrayRef.h:226-229 | vector `==` view compares elements |
| ArrayRefs.VecNe | c10/util/ArrayRef.h:231-234 | vector `!=` view compares elements |
| ArrayRefs.EqVec | c10/util/ArrayRef.h:236-239 | view `==` vector compares elements |
| ArrayRefs.NeVec | c10/util/ArrayRef.h:241-244 | view `!=` vector compares elements |
| ArrayRefs.NeIsNotEq | c10/util/ArrayRef.h:216-244 | every `!=` is the negation of the matching `==`, and both argument orders agree |
| ArrayRefs.EqIsEquivalence | c10/util/ArrayRef.h:123-125 | `==` is reflexive, symmetric and transitive |
| ArrayRefs.SliceAsWritten | c10/util/ArrayRef.h:127-131 | as written: the check compares `N + M` modulo 2^64 with the size |
| ArrayRefs.SliceAsWrittenOverruns | c10/util/ArrayRef.h:127-131 | `slice(2^64 - 1, 2)` on a four-element view passes the check and yields a view outside the data |
| ArrayRefs.Slice | c10/util/ArrayRef.h:127-131 | corrected: fails exactly when `N + M` exceeds the size; otherwise the `M` elements from `N` |
| ArrayRefs.SliceFrom | c10/util/ArrayRef.h:133-137 | fails exactly when `N` exceeds the size; otherwise the elements from `N` on |
| ArrayRefs.SliceOfSlice | c10/util/ArrayRef.h:127-131 | a slice of a slice is the slice at the summed offset, when it fits |
| ArrayRefs.SliceFromWhole | c10/util/ArrayRef.h:133-137 | `slice(0)` is the whole view and `slice(size)` is empty |
| ArrayRefs.ContainerRoundTrip | c10/util/ArrayRef.h:55-73 | `vec()` of a view built from a vector or initialiser list gives back the elements |
| ArrayRefs.AtAgreesWithIndex | c10/util/ArrayRef.h:111-146 | `at` agrees with `operator[]` in range; `front`/`back` are `at(0)`/`at(size-1)` |
| ArrayRefs.AccessScenario | test/c10/array_ref_test.cpp:20-42 | the front, back and `at` results of the access test, including the failing `at(4)` |
| ArrayRefs.EqualityScenario | test/c10/array_ref_test.cpp:82-109 | the comparison results of the equality test |
| SizesStrides.SizesAndStrides.constructor | c10/core/SizesAndStrides.h:22-25 | a new object is one-dimensional with size 0 and stride 1 |
| SizesStrides.SizesAndStrides.Copy | c10/core/SizesAndStrides.h:29-31 | the copy has `rhs`'s rank, sizes and strides in fresh storage |
| SizesStrides.SizesAndStrides.CopyAssign | c10/core/SizesAndStrides.h:33-39 | the object takes `rhs`'s rank and storage contents; self-assignment changes nothing |
| SizesStrides.SizesAndStrides.Move | c10/core/SizesAndStrides.h:41-44 | the new object takes the contents and the source's rank becomes 0 |
| SizesStrides.SizesAndStrides.MoveAssign | c10/core/SizesAndStrides.h:46-53 | the object takes `rhs`'s rank and contents and `rhs`'s rank becomes 0; self-move changes nothing |
| SizesStrides.SizesAndStrides.CopyData | c10/core/SizesAndStrides.h:179-181 | the whole inline storage is copied |
| SizesStrides.SizesAndStrides.SizeAt | c10/core/SizesAndStrides.h:125-133 | the `idx`-th size |
| SizesStrides.SizesAndStrides.SizeAtUnchecked | c10/core/SizesAndStrides.h:135-141 | within the rank, the `idx`-th size |
| SizesStrides.SizesAndStrides.StrideAtUnchecked | c10/core/SizesAndStrides.h:153-159 | within the rank, the `idx`-th stride |
| SizesStrides.SizesAndStrides.StrideAt | c10/core/SizesAndStrides.h:143-151 | the `idx`-th stride |
| SizesStrides.SizesAndStrides.SetSizeAt | c10/core/SizesAndStrides.h:130-133 | only the `idx`-th size changes |
| SizesStrides.SizesAndStrides.SetStrideAt | c10/core/SizesAndStrides.h:148-151 | only the `idx`-th stride changes |
| SizesStrides.SizesAndStrides.Resize | c10/core/SizesAndStrides.h:161-176 | the rank becomes the new size and the storage becomes `Resized` of the old storage |
| SizesStrides.Resized | c10/core/SizesAndStrides.h:161-176 | resizing keeps the storage length |
| SizesStrides.ResizedViews | c10/core/SizesAndStrides.h:161-176 | after resizing, the kept sizes and strides are unchanged and the new ones are 0 |
| SizesStrides.ResizeRoundTrip | c10/core/SizesAndStrides.h:161-176 | resizing to the same rank changes nothing; shrinking and growing back zeroes the dropped dimensions |
| SizesStrides.SizesAndStrides.SetSizes | c10/core/SizesAndStrides.h:87-90 | the sizes become the given list and the strides of kept dimensions survive |
| SizesStrides.SizesAndStrides.SetStrides | c10/core/SizesAndStrides.h:120-123 | a list of the wrong length fails the check and changes nothing; otherwise only the strides change |
| SizesStrides.RowMajorScenario | c10/core/SizesAndStrides.h:87-123 | setting sizes [2, 3] then strides [3, 1] gives those sizes and strides |
| Half.Fp16ToFp32BitsMatchesReference | c10/util/Half.h:20-102 | for all 2^16 inputs, the bit-twiddling conversion equals the IEEE 754 binary16 to binary32 encoding map |
| Half.Fp16ToFp32Bits | c10/util/Half.h:20-102 | the bit-twiddling conversion yields a 32-bit word |
| Half.SignPreserved | c10/util/Half.h:41 | bit 31 of the result is bit 15 of the input |
| Half.ZerosPreserved | c10/util/Half.h:79 | a binary16 zero of either sign (only the sign bit may be set) maps to the binary32 zero of the same sign |
| Half.InfNanPreserved | c10/util/Half.h:70-71 | infinities stay infinities and NaNs stay NaNs, with the payload moved up |
| Half.NormalRebiased | c10/util/Half.h:98-101 | normal numbers get their exponent rebiased by 112 and their fraction moved up by 13 |
| Half.SubnormalRenormalised | c10/util/Half.h:62-99 | subnormal numbers become normal binary32 numbers |
| Half.SubnormalExample | c10/util/Half.h:103-109 | the worked example: 32 (2^-19) becomes 0x36000000 |
| Half.ValuePreserved | c10/util/Half.h:20-102 | every finite input keeps its sign and its exact magnitude |
| Half.SubnormalFraction | c10/util/Half.h:62-63 | the bits below a subnormal's leading one fit the 23-bit fraction |
| Half.RenormShiftOf | c10/util/Half.h:62-63 | the renormalisation shift: 0 for normal inputs, and the leading-zero excess for subnormals |
| Half.InfNanMaskOf | c10/util/Half.h:70-71 | the mask is all exponent bits exactly for infinities and NaNs |
| Half.NotZeroMaskOf | c10/util/Half.h:79 | the mask is all ones exactly for nonzero magnitudes |
| Half.MagnitudeMatches | c10/util/Half.h:98-101 | the assembled magnitude equals the reference encoding's exponent and fraction |
| DeviceTypes.DeviceTypeNames | c10/core/device_type.cpp:5-24 | CPU and CUDA have their own names in both cases; every other value is "unknown"/"UNKNOWN" |
| DeviceTypes.DeviceTypeNameInjective | c10/core/device_type.cpp:5-14 | valid device types have distinct names |
| DeviceTypes.DeviceTypeName | c10/core/device_type.cpp:5-14 | the name is "unknown" (or "UNKNOWN") exactly for an invalid device type |
| DeviceTypes.IsValidDeviceType | c10/core/device_type.cpp:16-24 | valid exactly below `MaxDeviceTypes` |
| ScalarTypes.FromOrdinal | c10/core/ScalarType.h:13-36 | an enumerator exists exactly for values 0 to 13 |
| ScalarTypes.OrdinalBijection | c10/core/ScalarType.h:13-36 | enumerator values and enumerators are in bijection, `NumOptions` is 13, and the listed types are those below 12 |
| ScalarTypes.Ordinal | c10/core/ScalarType.h:13-36 | values from 0 to 13, with 12 exactly for Undefined and 13 exactly for NumOptions |
| ScalarTypes.IsIntegralType | c10/core/ScalarType.h:98-105 | an integral type is a listed type with a C++ type; Bool counts exactly when `includeBool` is set |
| ScalarTypes.IsReducedFloatingType | c10/core/ScalarType.h:107-109 | true exactly for the type stored as `c10::Half` |
| ScalarTypes.IsFloatingType | c10/core/ScalarType.h:111-114 | a floating type is a listed type other than Bool whose C++ type has no integer range |
| ScalarTypes.ToString | c10/core/ScalarType.h:72-83 | "UNKNOWN" exactly for the unlisted values |
| ScalarTypes.ToStringInjective | c10/core/ScalarType.h:72-83 | listed types have distinct names |
| ScalarTypes.CppTypeOf | c10/core/ScalarType.h:13-33 | exactly the listed types have a C++ type |
| ScalarTypes.ElementSize | c10/core/ScalarType.h:85-96 | the `sizeof` of the listed C++ type; the others fail with "Unknown scalar type" |
| ScalarTypes.IntegralClassification | c10/core/ScalarType.h:98-105 | the integral types are exactly the listed types with an integer C++ type; Bool joins only with `includeBool` |
| ScalarTypes.IntegralSizeMatchesRange | c10/core/ScalarType.h:85-105 | an integral type's element size is the byte width of its value range |
| ScalarTypes.FloatingClassification | c10/core/ScalarType.h:107-114 | the floating types are Float, Double and Half; the reduced one is Half |
| ScalarTypes.ClassesPartition | c10/core/ScalarType.h:98-114 | every listed type is exactly one of integral, floating or Bool |
| Devices.ValidationError | c10/core/Device.h:64-74 | accepts exactly index -1, or 0 on CPU, or any non-negative index on CUDA; otherwise the source's message |
| Devices.ValidationCases | c10/core/Device.h:64-74 | the accepted (type, index) pairs per device type |
| Devices.Device.Init | c10/core/Device.h:15-18 | stores the type and the index |
| Devices.Device.Make | c10/core/Device.h:15-74 | construction succeeds exactly when validation passes, and otherwise fails with its message |
| Devices.Device.OfType | c10/core/Device.h:15-18 | a device without an index |
| Devices.Device.Validate | c10/core/Device.h:64-74 | `validate()` is `ValidationError` of the device's fields |
| Devices.Device.NotEquals | c10/core/Device.h:22-28 | `!=` is the negation of `==` |
| Devices.EqualityLaws | c10/core/Device.h:22-28 | `==` is an equivalence and `!=` is its negation |
| Devices.Device.SetIndex | c10/core/Device.h:30-32 | only the index changes |
| Devices.Device.HasIndex | c10/core/Device.h:42-44 | true exactly when the index is not -1 |
| Devices.Device.Equals | c10/core/Device.h:22-24 | equal exactly when type and index agree, and equal devices have the same hash and string |
| Devices.Device.Str | c10/core/device.cpp:111-118 | the device's string, which is the lower-case type name alone exactly when the device has no index |
| Devices.DeviceStr | c10/core/device.cpp:111-118 | the string starts with the lower-case type name and is that name alone exactly when the index is -1 |
| Devices.Device.IsCuda | c10/core/Device.h:46-48 | true exactly for CUDA |
| Devices.Device.IsCpu | c10/core/Device.h:50-52 | true exactly for CPU |
| Devices.Device.SupportAsStrided | c10/core/Device.h:54-56 | false for every device |
| Devices.Device.Hash | c10/core/Device.h:84-92 | the type in bits 16 and up and the index, read as `uint8_t`, in the low byte |
| Devices.HashInjective | c10/core/Device.h:84-92 | devices with equal hashes are equal |
| Devices.ParseType | c10/core/device.cpp:10-33 | accepts exactly "cpu" and "cuda", whose lower-case names round-trip; otherwise the source's message |
| Devices.ParseTypeOfName | c10/core/device.cpp:10-33 | parsing a valid type's lower-case name gives the type back |
| Devices.NatToStringCanonical | c10/core/device.cpp:111-117 | `std::to_string` of a natural number is canonical decimal and reads back as that number |
| Devices.CanonicalRoundTrip | c10/core/device.cpp:43-117 | canonical decimal strings print back as themselves |
| Devices.LeadingDigitPositive | c10/core/device.cpp:43-84 | a digit string without a leading zero denotes at least 1 |
| Devices.ParseAccepts | c10/core/device.cpp:38-109 | an accepted string has a valid name and a well-formed index; its index is -1 without a colon part and otherwise the narrowed decimal value |
| Devices.ParseRejectsBadName | c10/core/device.cpp:43-84 | a character other than a letter or '_' before the first colon is rejected with "Invalid device string" |
| Devices.ParseRejectsEmptyIndex | c10/core/device.cpp:86-91 | a trailing colon with no digits is rejected |
| Devices.ParseRejectsLeadingZero | c10/core/device.cpp:43-84 | a multi-digit index with a leading zero is rejected |
| Devices.ColonAt | c10/core/device.cpp:43-84 | the position of the first colon, or the string's length when there is none |
| Devices.ColonAtJoin | c10/core/device.cpp:43-84 | splitting `name:rest` at the first colon gives back `name` and `rest` |
| Devices.ParseStrRoundTrip | c10/core/device.cpp:38-117 | parsing `str()` of a valid device gives the device back |
| Devices.ScanDeviceString | c10/core/device.cpp:41-91 | the character state machine and the `has_error` test succeed exactly on well-formed strings, collecting the name before the first colon and the digits after it |
| Devices.ParseDevice | c10/core/device.cpp:38-109 | the empty string gives "Device string is empty", an ill-formed one "Invalid device string"; an accepted string is well formed, its name parses to the type, the (type, index) pair passes validation, and no index part gives -1 |
| Devices.TypeAndValidate | c10/core/device.cpp:107-108 | succeeds exactly when `parse_type` accepts the name and `validate` accepts the type with the index, and then yields that pair |
| Devices.FromString | c10/core/device.cpp:38-109 | `Device(string)` builds the parsed device, or fails with the parser's message |
| Devices.ParseAcceptedScenarios | test/device_test.cpp:15-19 | "cpu" and "cuda:1" parse |
| Devices.ParseLeadingZeroScenario | test/device_test.cpp:21-23 | "cuda:01" is rejected |
| Devices.ParseCpuIndexScenario | c10/core/device.cpp:38-109 | "cpu:1" fails validation with the CPU-index message |
| Devices.ParseRejectedScenarios | c10/core/device.cpp:38-109 | the empty string, an unknown name and a trailing colon fail with their messages |
| Devices.ConstructedScenario | test/device_test.cpp:9-13 | constructed devices print as "cpu:0" and "cuda:1" |
| Devices.ParsedScenario | test/device_test.cpp:15-23 | parsed devices print back, and the bad string is an error |
| Devices.NarrowingAsWritten | c10/core/device.cpp:93-96 | as written: "cuda:256" parses as CUDA device 0 and "cuda:255" as a device without index |
| Devices.ParseDeviceChecked | c10/core/device.cpp:93-105 | corrected parser: whatever it accepts, the source's parser accepts the same way |
| Devices.PrintParseChecked | c10/core/device.cpp:93-117 | every string the corrected parser accepts is exactly `str()` of the result |
| Devices.CheckedAgreesOnPrinted | c10/core/device.cpp:93-117 | on printed valid devices both parsers agree and give the device back |
| Allocators.Registry.constructor | c10/core/Allocator.cpp:23-28 | every slot starts null with priority 0 |
| Allocators.Registry.SetAllocator | c10/core/Allocator.cpp:30-35 | the slot is replaced exactly when the new priority is at least the stored one; priorities never drop; other slots are untouched |
| Allocators.Registry.GetAllocator | c10/core/Allocator.cpp:37-41 | the slot's allocator, or "Allocator for <type> is not set" |
| Allocators.PriorityScenario | c10/core/Allocator.cpp:30-41 | registering at priorities 0, 5 and 3 keeps the second allocator; an unset slot fails |
| UniqueVoidPtrs.UniqueVoidPtr.Default | c10/util/UniqueVoidPtr.h:19-21 | null data, null context, the do-nothing deleter |
| UniqueVoidPtrs.UniqueVoidPtr.OfData | c10/util/UniqueVoidPtr.h:19-21 | the data pointer with no owned context |
| UniqueVoidPtrs.UniqueVoidPtr.constructor | c10/util/UniqueVoidPtr.h:22-23 | stores data, context and deleter |
| UniqueVoidPtrs.UniqueVoidPtr.Get | c10/util/UniqueVoidPtr.h:34-36 | non-null data means the pointer is set |
| UniqueVoidPtrs.UniqueVoidPtr.GetContext | c10/util/UniqueVoidPtr.h:38-40 | the context is what casting under the current deleter gives, and a non-null one means the pointer is set |
| UniqueVoidPtrs.UniqueVoidPtr.GetDeleter | c10/util/UniqueVoidPtr.h:72-74 | casting under the returned deleter yields the context |
| UniqueVoidPtrs.UniqueVoidPtr.Clear | c10/util/UniqueVoidPtr.h:29-32 | runs the deleter once on a non-null context, then nulls data and context |
| UniqueVoidPtrs.UniqueVoidPtr.ReleaseContext | c10/util/UniqueVoidPtr.h:42-44 | hands back the context without deleting it |
| UniqueVoidPtrs.UniqueVoidPtr.CompareExchangeDeleter | c10/util/UniqueVoidPtr.h:50-58 | installs the new deleter exactly when the current one is the expected one; no deleter runs |
| UniqueVoidPtrs.UniqueVoidPtr.CastContext | c10/util/UniqueVoidPtr.h:60-66 | the context under the expected deleter, null otherwise |
| UniqueVoidPtrs.UniqueVoidPtr.IsSet | c10/util/UniqueVoidPtr.h:68-70 | true when data or context is set |
| UniqueVoidPtrs.UniqueVoidPtr.EqualsNull | c10/util/UniqueVoidPtr.h:77-82 | true exactly when both are null |
| UniqueVoidPtrs.UniqueVoidPtr.NotEqualsNull | c10/util/UniqueVoidPtr.h:83-88 | the negation of `== nullptr` |
| UniqueVoidPtrs.ContextHandoverScenario | c10/util/UniqueVoidPtr.h:50-70 | the exchange and release sequence hands the context over without any deletion |
| UniqueVoidPtrs.ClearDeletesScenario | c10/util/UniqueVoidPtr.h:29-32 | clearing an owning pointer deletes its context exactly once |
| StorageImpls.Cleared | c10/core/StorageImpl.h:55-60 | a cleared data pointer is null and keeps its deleter |
| StorageImpls.StorageImpl.Init | c10/core/StorageImpl.h:19-28 | stores the size, data pointer, allocator and resizability, with every access flag off |
| StorageImpls.StorageImpl.Create | c10/core/StorageImpl.h:19-34 | fails exactly when the storage is resizable but has no allocator |
| StorageImpls.StorageImpl.CreateAllocated | c10/core/StorageImpl.h:36-46 | holds the allocator's data pointer at the requested size |
| StorageImpls.StorageImpl.RefreshHasDataPtrCheck | c10/core/StorageImpl.h:156-159 | the summary flag becomes the disjunction of the two throw flags |
| StorageImpls.StorageImpl.Reset | c10/core/StorageImpl.h:54-57 | the data pointer is cleared and the size becomes 0 |
| StorageImpls.StorageImpl.ReleaseResources | c10/core/StorageImpl.h:59-61 | the data pointer is cleared and the size is kept |
| StorageImpls.StorageImpl.SetNbytes | c10/core/StorageImpl.h:67-69 | only the size changes |
| StorageImpls.StorageImpl.GetDataPtr | c10/core/StorageImpl.h:75-82 | fails exactly when immutable access throws; otherwise the data pointer |
| StorageImpls.StorageImpl.GetMutableDataPtr | c10/core/StorageImpl.h:84-91 | fails exactly when mutable access throws; otherwise the data pointer |
| StorageImpls.StorageImpl.SetDataPtr | c10/core/StorageImpl.h:97-99 | swaps in the new data pointer and returns the old one |
| StorageImpls.StorageImpl.SetDataPtrNoMaterializeCow | c10/core/StorageImpl.h:106-112 | the same swap, without copy-on-write materialisation |
| StorageImpls.StorageImpl.SetDataPtrNoswap | c10/core/StorageImpl.h:101-104 | replaces the data pointer |
| StorageImpls.StorageImpl.SetThrowOnMutableDataPtr | c10/core/StorageImpl.h:115-118 | mutable access now throws and the summary flag is set |
| StorageImpls.StorageImpl.SetThrowOnImmutableDataPtr | c10/core/StorageImpl.h:120-123 | immutable access now throws and the summary flag is set |
| StorageImpls.StorageImpl.SetAllocator | c10/core/StorageImpl.h:139-141 | only the allocator changes |
| StorageImpls.StorageImpl.SetResizable | c10/core/StorageImpl.h:147-153 | making the storage resizable fails exactly when it has no allocator, and then nothing changes |
| StorageImpls.AccessFlagsScenario | c10/core/StorageImpl.h:75-123 | after banning mutable access, reads pass and writes fail; after both bans, reads fail too |

## Left out

- Atomics and memory orders: counters are read and written sequentially, so `weak_intrusive_ptr::lock`'s compare-exchange loop succeeds on its first try.
- IntrusivePtrs.WeakIntrusivePtr.Lock: stated without contention, so the retry path of the compare-exchange loop is not modelled.
- Deallocation is a ghost `deleted` flag and a `released` counter on the target; `release_resources()` and the destructors of derived targets are not modelled.
- `operator<` on handles (c10/util/intrusive_ptr.h:309-314, 594-599) compares raw addresses, which the model does not order.
- `std::hash` specialisations for `intrusive_ptr`, `DispatchKey` and `DispatchKeySet` return the pointer or the enumerator value unchanged; only `Device`'s hash is modelled.
- The templated converting constructors and assignments between `NullType`s (`assign_ptr_`) are left out; the model has one `NullType`, namely `nullptr`.
- MaybeOwneds: the moved-from state of a `T` after `std::move` is a parameter (`movedFrom`), because it depends on `T`.
- MaybeOwneds.MaybeOwned.Deref and UnsafeIsBorrowed carry no contract of their own; their behaviour is stated through the constructors and `Take`.
- test2 of test/maybe_owned_test.cpp only prints use counts and calls a destructor twice by hand, so it has no scenario.
- test_iterator of test/c10/dispatch_keyset_test.cpp loops forever, because `operator++` does not advance (DispatchKeySets.BeginNeverReachesEnd), so it has no scenario.
- test/intrusive_ptr_test.cpp duplicates test/c10/intrusive_ptr_test.cpp and is not modelled separately.
- The prefix that `CheckMsg` puts before a failed check's message ("expected <condition> to be true, but got false. "), and the "[file:line] function " prefix of `c10::Error`, are left out: an `Err` holds only the message arguments.
- `operator<<` overloads (DispatchKey.cpp:62-68, ArrayRef.h:162-173, printing in Device.h) are left out; only the strings they print are modelled.
- ArrayRef aliasing, iterators and `makeArrayRef` are left out. The view is a sequence plus an offset, and `makeArrayRef` only forwards to the constructors.
- DispatchKeyNames.DispatchKeyToString: requires a key other than `EndOfFunctionlityKeys`, because the source's recursion never ends on it.
- DispatchKeySets.FromKey: requires a key other than the `StartOf…` markers, whose backend component is InvalidBit, so the backend shift `1ULL << (backend - 1)` is by -1 (undefined behaviour in C++).
- DispatchKeySets.FromBackend: requires a backend number of at most 64, because a shift past the word is undefined behaviour.
- DispatchKeySets.Increment: `operator++` is left as the source's bounds check with a TODO, so the iterator does not advance.
- `countLeadingZeros` is modelled as the word width minus the bit length.
- `num_runtime_entries` is a parameter of the offset-table initialiser, because it comes from the dispatcher.
- The `"C"` locale is assumed for `isalpha` and `isdigit` in the device parser.
- Devices.ParseAccepts: for an index part, the index is the decimal value narrowed to `int8_t`, so "cuda:255" gives -1. The statement is one-way: it does not claim every well-formed string is accepted.
- Device guards (DeviceGuard.h, InlineDeviceGuard.h, impl/) are not part of this model.
- `sizeof(c10::Half)` is a parameter of `elementSize`, and the other sizes assume an LP64 target.
- `CPPTypeToScalarType` and `ScalarTypeToCPPType` are compile-time templates, so they are left out.
- The arithmetic of `Half` (conversion to and from `float`, floating point) is left out; only the bit-level conversion is modelled.
- Allocators.Registry.SetAllocator and GetAllocator require a device type below `MaxDeviceTypes`, because the source indexes the arrays without a check.
- `Allocator::clone` and `default_copy_data` (Allocator.cpp:11-20) copy raw memory and are left out.
- UniqueVoidPtr `move_context` is left out; it returns the `unique_ptr` itself.
- StorageImpls.StorageImpl.CreateAllocated: requires a non-null allocator, because the source dereferences it. The allocation itself is an input data pointer.
- `DataPtr` is a value (data, deleter); its context and device are left out, so `DataPtr::device()` and `StorageImpl::device()`/`device_type()` are not part of this model.
- StorageImpls: `DataPtr::clear()` and the data pointer that `set_data_ptr_noswap` replaces run that pointer's deleter; StorageImpl records no deleter calls (UniqueVoidPtr does, in `deleterCalls`), because a `DataPtr` here is a value without ownership state.
- `_mutable_data_ptr_unsafe` and the plain accessors of StorageImpl are left out.
- `throw_data_ptr_access_error` is declared but never defined in the source, so its message is a placeholder string.

## Findings

| source | as written | input that shows it | evidently intended | confidence | as-written member | corrected member |
|---|---|---|---|---|---|---|
| c10/util/intrusive_ptr.h:344-356 | `operator!=(lhs, nullptr)` compares the handle with itself, so it is false for every handle | any defined handle `p`: `p != nullptr` is false | true exactly when the handle is defined | not executed | IntrusivePtrs.IntrusivePtr.NotEqualsNullAsWritten (lemma IntrusivePtrs.NotEqualsNullQuirk) | IntrusivePtrs.IntrusivePtr.NotEqualsNull |
| c10/util/intrusive_ptr.h:505-507 | weak `reset()` drops the weak count but keeps `target_`, so the destructor drops it a second time | one strong and one weak handle; `reset()` then destroy the weak handle: the target is deleted while the strong handle lives | `reset()` also sets `target_` to null | not executed | IntrusivePtrs.WeakIntrusivePtr.ResetAsWritten (lemma IntrusivePtrs.WeakResetAsWrittenDeletesLiveTarget) | IntrusivePtrs.WeakIntrusivePtr.Reset |
| c10/util/ArrayRef.h:127-131 | `slice(N, M)` checks `N + M <= size()` in `size_t`, where the sum wraps | a four-element view, `N = 2^64 - 1`, `M = 2`: the check passes and the view starts past the data | reject every `N`, `M` with `N + M > size()` in exact arithmetic | not executed | ArrayRefs.SliceAsWritten (lemma ArrayRefs.SliceAsWrittenOverruns) | ArrayRefs.Slice |
| c10/core/device.cpp:93-96 | the parsed index is narrowed to `int8_t` without a range check | "cuda:256" parses as CUDA device 0, and "cuda:255" as CUDA without an index | reject indices outside `int8_t` range, so that every accepted string is what `str()` prints | not executed | Devices.ParseDevice (lemma Devices.NarrowingAsWritten) | Devices.ParseDeviceChecked (lemma Devices.PrintParseChecked) |
