/** c10/core/Allocator.cpp: the global allocator registry, one slot per
    device type holding an allocator pointer and the priority it was
    registered with. */
module Allocators {
  import opened Wrappers
  import opened DeviceTypes

  /** An allocator object; only its identity matters to the registry. */
  class Allocator {
    constructor () {}
  }

  /** `uint8_t`. */
  type Uint8 = x: int | 0 <= x < 0x100

  /** The two global arrays `allocator_array` and `allocator_priority`,
      indexed by `static_cast<int>(t)`. */
  class Registry {
    const allocators: array<Allocator?>
    const priorities: array<Uint8>

    ghost predicate Valid()
      reads this
    {
      allocators.Length == MaxDeviceTypes as int && priorities.Length == MaxDeviceTypes as int
    }

    /** Zero-initialised globals: every slot is null with priority 0. */
    constructor ()
      ensures Valid() && fresh(allocators) && fresh(priorities)
      ensures forall i :: 0 <= i < allocators.Length ==> allocators[i] == null && priorities[i] == 0
    {
      allocators := new Allocator?[MaxDeviceTypes as int](_ => null);
      priorities := new Uint8[MaxDeviceTypes as int](_ => 0);
    }

    /** `SetAllocator(t, alloc, priority)`: the slot of `t` takes `alloc`
        and `priority` exactly when `priority` is at least the stored one;
        every other slot is untouched. */
    method SetAllocator(t: DeviceType, alloc: Allocator?, priority: Uint8)
      requires Valid() && t < MaxDeviceTypes
      modifies allocators, priorities
      ensures Valid()
      ensures priority >= old(priorities[t]) ==> allocators[t] == alloc && priorities[t] == priority
      ensures priority < old(priorities[t]) ==>
        allocators[t] == old(allocators[t]) && priorities[t] == old(priorities[t])
      ensures priorities[t] >= old(priorities[t])
      ensures forall i :: 0 <= i < allocators.Length && i != t as int ==>
        allocators[i] == old(allocators[i]) && priorities[i] == old(priorities[i])
    {
      if priority >= priorities[t] {
        allocators[t] := alloc;
        priorities[t] := priority;
      }
    }

    /** `GetAllocator(t)`: the slot's allocator; a null slot fails with
        "Allocator for <type> is not set". */
    method GetAllocator(t: DeviceType) returns (r: Result<Allocator, string>)
      requires Valid() && t < MaxDeviceTypes
      ensures r.Ok? <==> allocators[t] != null
      ensures r.Ok? ==> r.value == allocators[t]
      ensures r.Err? ==> r.error == "Allocator for " + DeviceTypeName(t, false) + " is not set"
    {
      var alloc := allocators[t];
      if alloc == null {
        return Err("Allocator for " + DeviceTypeName(t, false) + " is not set");
      }
      return Ok(alloc);
    }
  }

  /** Registrations at priorities 0, 5 and 3 for CPU: the third is refused,
      so CPU keeps the second allocator and CUDA stays unset. */
  method PriorityScenario() returns (cpu: Result<Allocator, string>, cuda: Result<Allocator, string>,
                                     second: Allocator)
    ensures cpu == Ok(second) && cuda.Err?
  {
    var registry := new Registry();
    var a := new Allocator();
    var b := new Allocator();
    var c := new Allocator();
    registry.SetAllocator(CPU, a, 0);
    registry.SetAllocator(CPU, b, 5);
    registry.SetAllocator(CPU, c, 3);
    cpu := registry.GetAllocator(CPU);
    cuda := registry.GetAllocator(CUDA);
    second := b;
  }
}
