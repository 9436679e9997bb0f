/** c10/core/device_type.h and c10/core/device_type.cpp: the device-type enum,
    its printable names and its validity test. */
module DeviceTypes {

  /** `enum class DeviceType : uint8_t`. */
  newtype DeviceType = x: int | 0 <= x < 0x100

  const CPU: DeviceType := 0
  const CUDA: DeviceType := 1
  const MaxDeviceTypes: DeviceType := 2

  /** `DeviceTypeName(d, lower_case)`. */
  function DeviceTypeName(d: DeviceType, lowerCase: bool): (r: string)
    ensures IsValidDeviceType(d) <==> r != (if lowerCase then "unknown" else "UNKNOWN")
  {
    if d == CPU then (if lowerCase then "cpu" else "CPU")
    else if d == CUDA then (if lowerCase then "cuda" else "CUDA")
    else (if lowerCase then "unknown" else "UNKNOWN")
  }

  /** `isValidDeviceType(d)`. */
  predicate IsValidDeviceType(d: DeviceType)
    ensures IsValidDeviceType(d) <==> d < MaxDeviceTypes
  {
    d == CPU || d == CUDA
  }

  /** A valid type has a name of its own; every other value is "unknown". */
  lemma DeviceTypeNames(d: DeviceType, lowerCase: bool)
    ensures IsValidDeviceType(d) <==> DeviceTypeName(d, lowerCase) != DeviceTypeName(MaxDeviceTypes, lowerCase)
    ensures !IsValidDeviceType(d) ==> DeviceTypeName(d, lowerCase) == (if lowerCase then "unknown" else "UNKNOWN")
    ensures DeviceTypeName(CPU, lowerCase) == (if lowerCase then "cpu" else "CPU")
    ensures DeviceTypeName(CUDA, lowerCase) == (if lowerCase then "cuda" else "CUDA")
  {
  }

  /** Valid types have distinct names in either case. */
  lemma DeviceTypeNameInjective(d: DeviceType, e: DeviceType, lowerCase: bool)
    requires IsValidDeviceType(d) && IsValidDeviceType(e)
    requires DeviceTypeName(d, lowerCase) == DeviceTypeName(e, lowerCase)
    ensures d == e
  {
  }
}
