/** c10/core/DispatchKey.cpp: backend of a device type and printable key names. */
module DispatchKeyNames {
  import opened Wrappers
  import opened DispatchKeys
  import opened DeviceTypes

  /** `toBackendComponent(DeviceType)`. */
  function BackendComponentOfDeviceType(d: DeviceType): (r: BackendComponent)
    ensures r != InvalidBit <==> IsValidDeviceType(d)
    ensures IsBackend(r) || r == InvalidBit
  {
    if d == CPU then CPUBit
    else if d == CUDA then CUDABit
    else InvalidBit
  }

  /** `toString(BackendComponent)`. */
  function BackendComponentToString(b: BackendComponent): (r: string)
    ensures r == "InvalidBit" <==> !IsBackend(b)
  {
    if b == CPUBit then "CPUBit"
    else if b == CUDABit then "CUDABit"
    else if b == MetaBit then "MetaBit"
    else "InvalidBit"
  }

  /** The keys that `toString(DispatchKey)` names by a `case` of its own. */
  function NamedKeyString(k: DispatchKey): (r: Option<string>)
    ensures r.None? <==> EndOfFunctionlityKeys <= k < StartOfAliasKeys || k > EndOfAliasKeys
  {
    if k == Undefined then Some("Undefined")
    else if k == Dense then Some("Dense")
    else if k == BackendSelect then Some("BackendSelect")
    else if k == ADInplaceOrView then Some("ADInplaceOrView")
    else if k == AutogradFunctionality then Some("AutogradFunctionality")
    else if k == AutocastCPU then Some("AutocastCPU")
    else if k == AutocastCUDA then Some("AutocastCUDA")
    else if k == Autograd then Some("Autograd")
    else if k == CompositeImplicitAutograd then Some("CompositeImplicitAutograd")
    else if k == CompositeExplicitAutograd then Some("CompositeExplicitAutograd")
    else None
  }

  /** `toString(DispatchKey)`. Every other key is printed as its functionality's
      name and its backend's name. For `EndOfFunctionlityKeys` that recursion
      never ends (`toFunctionalityKey` returns the key itself), so it is excluded. */
  function DispatchKeyToString(k: DispatchKey): (r: string)
    requires k != EndOfFunctionlityKeys
    ensures NamedKeyString(k).Some? ==> r == NamedKeyString(k).value
    ensures NamedKeyString(k).None? ==>
      NamedKeyString(ToFunctionalityKey(k)).Some?
      && r == NamedKeyString(ToFunctionalityKey(k)).value + " " + BackendComponentToString(ToBackendComponent(k))
    decreases if NamedKeyString(k).Some? then 0 else 1
  {
    match NamedKeyString(k)
    case Some(name) => name
    case None =>
      DispatchKeyToString(ToFunctionalityKey(k)) + " " + BackendComponentToString(ToBackendComponent(k))
  }

  /** A runtime key prints as its functionality's name, a space and its
      backend's name (the `default` branch). */
  lemma RuntimeKeyString(k: DispatchKey)
    requires IsRuntimeBackendKey(k)
    ensures ToFunctionalityKey(k) == Dense ==>
              DispatchKeyToString(k) == "Dense " + BackendComponentToString(ToBackendComponent(k))
    ensures ToFunctionalityKey(k) == AutogradFunctionality ==>
              DispatchKeyToString(k) == "AutogradFunctionality " + BackendComponentToString(ToBackendComponent(k))
  {
  }

  lemma DenseCudaString()
    ensures DispatchKeyToString(DenseCUDA) == "Dense CUDABit"
  {
    RuntimeKeyString(DenseCUDA);
  }
}
