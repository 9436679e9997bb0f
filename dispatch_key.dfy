/** c10/core/DispatchKey.h: backend components, dispatch keys and the
    conversions between runtime keys and (functionality, backend) pairs. */
module DispatchKeys {
  import opened BitsUtil

  /** `enum class BackendComponent : uint8_t`. */
  newtype BackendComponent = x: int | 0 <= x < 0x100

  const InvalidBit: BackendComponent := 0
  const CPUBit: BackendComponent := 1
  const CUDABit: BackendComponent := 2
  const MetaBit: BackendComponent := 3
  const EndOfBackendKeys: BackendComponent := MetaBit

  /** `enum class DispatchKey : uint16_t`. */
  newtype DispatchKey = x: int | 0 <= x < 0x1_0000

  const Undefined: DispatchKey := 0
  const CatchAll: DispatchKey := Undefined
  const Dense: DispatchKey := 1
  const BackendSelect: DispatchKey := 2
  const ADInplaceOrView: DispatchKey := 3
  const AutogradFunctionality: DispatchKey := 4
  const AutocastCPU: DispatchKey := 5
  const AutocastCUDA: DispatchKey := 6
  const EndOfFunctionlityKeys: DispatchKey := 7
  const StartOfDenseBackends: DispatchKey := 8
  const DenseCPU: DispatchKey := 9
  const DenseCUDA: DispatchKey := 10
  const DenseMeta: DispatchKey := 11
  const EndOfDenseBackends: DispatchKey := DenseMeta
  const StartOfAutogradFunctionalityBackends: DispatchKey := 12
  const AutogradCPU: DispatchKey := 13
  const AutogradCUDA: DispatchKey := 14
  const AutogradMeta: DispatchKey := 15
  const EndOfAutogradFunctionalityBackends: DispatchKey := AutogradMeta
  const EndOfRuntimeBackendKeys: DispatchKey := EndOfAutogradFunctionalityBackends
  const Autograd: DispatchKey := 16
  const CompositeImplicitAutograd: DispatchKey := 17
  const CompositeExplicitAutograd: DispatchKey := 18
  const StartOfAliasKeys: DispatchKey := Autograd
  const EndOfAliasKeys: DispatchKey := CompositeExplicitAutograd

  const NumFunctionalityKeys: nat := EndOfFunctionlityKeys as nat
  const NumBackends: nat := EndOfBackendKeys as nat
  /** `(1 << num_backends) - 1`: one bit per backend. */
  const FullBackendMask: nat := Pow2(NumBackends) - 1

  lemma Constants()
    ensures NumFunctionalityKeys == 7 && NumBackends == 3 && FullBackendMask == 7
  {
  }

  /** `isPerBackendFunctionalityKey(k)`: the functionality keys that have one
      runtime key per backend. */
  predicate IsPerBackendFunctionalityKey(k: DispatchKey)
    ensures IsPerBackendFunctionalityKey(k) ==> Undefined < k < EndOfFunctionlityKeys
  {
    k == Dense || k == AutogradFunctionality
  }

  /** A runtime per-backend key: one of DenseCPU..DenseMeta or AutogradCPU..AutogradMeta. */
  predicate IsRuntimeBackendKey(k: DispatchKey) {
    (StartOfDenseBackends < k <= EndOfDenseBackends)
    || (StartOfAutogradFunctionalityBackends < k <= EndOfAutogradFunctionalityBackends)
  }

  /** A real (non-invalid) backend component. */
  predicate IsBackend(b: BackendComponent) {
    CPUBit <= b <= EndOfBackendKeys
  }

  /** Number of per-backend functionality keys among the values `0 .. n - 1`. */
  function PerBackendKeysBelow(n: nat): (r: nat)
    requires n <= 0x1_0000
    ensures r <= n
  {
    if n == 0 then 0
    else PerBackendKeysBelow(n - 1) + (if IsPerBackendFunctionalityKey((n - 1) as DispatchKey) then 1 else 0)
  }

  /** `numPerBackendFunctionalityKeys()`: counts the keys `0 ..= num_functionality_keys`. */
  method NumPerBackendFunctionalityKeys() returns (count: nat)
    ensures count == PerBackendKeysBelow(NumFunctionalityKeys + 1)
    ensures count == 2
  {
    count := 0;
    var k: nat := 0;
    while k <= NumFunctionalityKeys
      invariant k <= NumFunctionalityKeys + 1
      invariant count == PerBackendKeysBelow(k)
    {
      if IsPerBackendFunctionalityKey(k as DispatchKey) {
        count := count + 1;
      }
      k := k + 1;
    }
  }

  /** `toBackendComponent(DispatchKey)`: the backend of a runtime key,
      measured from the range's `StartOf*` marker. */
  function ToBackendComponent(k: DispatchKey): (r: BackendComponent)
    ensures r <= EndOfBackendKeys
    ensures r != InvalidBit <==> IsRuntimeBackendKey(k)
  {
    if StartOfDenseBackends <= k <= EndOfDenseBackends then
      (k - StartOfDenseBackends) as BackendComponent
    else if StartOfAutogradFunctionalityBackends <= k <= EndOfAutogradFunctionalityBackends then
      (k - StartOfAutogradFunctionalityBackends) as BackendComponent
    else
      InvalidBit
  }

  /** `toFunctionalityKey(DispatchKey)`. */
  function ToFunctionalityKey(k: DispatchKey): (r: DispatchKey)
    ensures r <= EndOfFunctionlityKeys
    ensures k <= EndOfFunctionlityKeys ==> r == k
  {
    if k <= EndOfFunctionlityKeys then k
    else if k <= EndOfDenseBackends then Dense
    else if k <= EndOfAutogradFunctionalityBackends then AutogradFunctionality
    else Undefined
  }

  /** `toRuntimePerBackendFunctionalityKey(functionality, backend)`. */
  function ToRuntimePerBackendFunctionalityKey(f: DispatchKey, b: BackendComponent): (r: DispatchKey)
    ensures !IsPerBackendFunctionalityKey(f) ==> r == Undefined
    ensures IsPerBackendFunctionalityKey(f) && IsBackend(b) ==> IsRuntimeBackendKey(r)
  {
    if f == Dense then StartOfDenseBackends + b as DispatchKey
    else if f == AutogradFunctionality then StartOfAutogradFunctionalityBackends + b as DispatchKey
    else Undefined
  }

  /** Splitting the runtime key of a (per-backend functionality, backend) pair
      gives the pair back. */
  lemma RuntimeKeySplits(f: DispatchKey, b: BackendComponent)
    requires IsPerBackendFunctionalityKey(f) && IsBackend(b)
    ensures ToFunctionalityKey(ToRuntimePerBackendFunctionalityKey(f, b)) == f
    ensures ToBackendComponent(ToRuntimePerBackendFunctionalityKey(f, b)) == b
  {
  }

  /** Every runtime key is the runtime key of its own functionality and backend. */
  lemma RuntimeKeyJoins(k: DispatchKey)
    requires IsRuntimeBackendKey(k)
    ensures IsPerBackendFunctionalityKey(ToFunctionalityKey(k))
    ensures IsBackend(ToBackendComponent(k))
    ensures ToRuntimePerBackendFunctionalityKey(ToFunctionalityKey(k), ToBackendComponent(k)) == k
  {
  }

  /** `toFunctionalityKey` on the ranges above the functionality keys. */
  lemma FunctionalityOfRanges(k: DispatchKey)
    ensures StartOfDenseBackends <= k <= EndOfDenseBackends ==> ToFunctionalityKey(k) == Dense
    ensures StartOfAutogradFunctionalityBackends <= k <= EndOfAutogradFunctionalityBackends ==>
              ToFunctionalityKey(k) == AutogradFunctionality
    ensures k >= StartOfAliasKeys ==> ToFunctionalityKey(k) == Undefined
  {
  }

  /** The `StartOf*` markers and everything outside the runtime ranges have no backend. */
  lemma NoBackendOutsideRuntimeRanges(k: DispatchKey)
    requires k == StartOfDenseBackends || k == StartOfAutogradFunctionalityBackends
             || k <= EndOfFunctionlityKeys || k > EndOfRuntimeBackendKeys
    ensures ToBackendComponent(k) == InvalidBit
  {
  }
}
