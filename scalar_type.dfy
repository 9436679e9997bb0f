/** c10/core/ScalarType.h: the scalar-type enum generated from the table
    of (C++ type, name) pairs, its names, element sizes and the integral /
    floating classifiers. */
module ScalarTypes {
  import opened Wrappers
  import opened BitsUtil

  /** `enum class ScalarType : int8_t`, in declaration order. */
  datatype ScalarType =
    | Byte | Char | Short | Int | Long | Half | Float | Double | Bool
    | UInt16 | UInt32 | UInt64 | Undefined | NumOptions

  /** The enumerator's value: its position in the declaration. */
  function Ordinal(t: ScalarType): (n: nat)
    ensures n <= 13
    ensures n == 13 <==> t == NumOptions
    ensures n == 12 <==> t == Undefined
  {
    match t
    case Byte => 0 case Char => 1 case Short => 2 case Int => 3
    case Long => 4 case Half => 5 case Float => 6 case Double => 7
    case Bool => 8 case UInt16 => 9 case UInt32 => 10 case UInt64 => 11
    case Undefined => 12 case NumOptions => 13
  }

  /** `static_cast<ScalarType>` of an enumerator value. */
  function FromOrdinal(n: nat): (r: Option<ScalarType>)
    ensures r.Some? <==> n <= 13
  {
    if n > 13 then None
    else Some([Byte, Char, Short, Int, Long, Half, Float, Double, Bool,
               UInt16, UInt32, UInt64, Undefined, NumOptions][n])
  }

  /** `NumScalarTypes`: the value of `NumOptions`. */
  const NumScalarTypes: nat := Ordinal(NumOptions)

  /** The types that `AT_FORALL_SCALAR_TYPES` lists: all but the two
      trailing enumerators. */
  predicate IsListed(t: ScalarType) {
    t != Undefined && t != NumOptions
  }

  /** Enumerator values are distinct, `FromOrdinal` inverts `Ordinal`, and
      there are thirteen listed or `Undefined` types before `NumOptions`. */
  lemma OrdinalBijection(t: ScalarType, n: nat)
    ensures FromOrdinal(Ordinal(t)) == Some(t)
    ensures n <= 13 ==> Ordinal(FromOrdinal(n).value) == n
    ensures NumScalarTypes == 13
    ensures IsListed(t) <==> Ordinal(t) < 12
  {
  }

  /** `toString`: the enumerator's name for a listed type, "UNKNOWN" otherwise. */
  function ToString(t: ScalarType): (r: string)
    ensures !IsListed(t) <==> r == "UNKNOWN"
  {
    match t
    case Byte => "Byte" case Char => "Char" case Short => "Short" case Int => "Int"
    case Long => "Long" case Half => "Half" case Float => "Float" case Double => "Double"
    case Bool => "Bool" case UInt16 => "UInt16" case UInt32 => "UInt32" case UInt64 => "UInt64"
    case Undefined => "UNKNOWN" case NumOptions => "UNKNOWN"
  }

  /** Listed types have distinct names. */
  lemma ToStringInjective(a: ScalarType, b: ScalarType)
    requires IsListed(a) && IsListed(b) && ToString(a) == ToString(b)
    ensures a == b
  {
    match a
    case Byte => assert ToString(a)[0] == 'B' && ToString(a)[1] == 'y';
    case Char => assert ToString(a)[0] == 'C';
    case Short => assert ToString(a)[0] == 'S';
    case Int => assert |ToString(a)| == 3 && ToString(a)[0] == 'I';
    case Long => assert ToString(a)[0] == 'L';
    case Half => assert ToString(a)[0] == 'H';
    case Float => assert ToString(a)[0] == 'F';
    case Double => assert ToString(a)[0] == 'D';
    case Bool => assert ToString(a)[0] == 'B' && ToString(a)[1] == 'o';
    case UInt16 => assert ToString(a)[4] == '1';
    case UInt32 => assert ToString(a)[4] == '3';
    case UInt64 => assert ToString(a)[4] == '6';
  }

  /** The C++ type of a listed entry. */
  datatype CppType =
    | U8 | I8 | I16 | I32 | I64 | HalfStruct | F32 | F64 | CppBool | U16 | U32 | U64

  /** The C++ type column of `AT_FORALL_SCALAR_TYPES`. */
  function CppTypeOf(t: ScalarType): (c: Option<CppType>)
    ensures c.Some? <==> IsListed(t)
  {
    match t
    case Byte => Some(U8) case Char => Some(I8) case Short => Some(I16) case Int => Some(I32)
    case Long => Some(I64) case Half => Some(HalfStruct) case Float => Some(F32)
    case Double => Some(F64) case Bool => Some(CppBool) case UInt16 => Some(U16)
    case UInt32 => Some(U32) case UInt64 => Some(U64)
    case Undefined => None case NumOptions => None
  }

  /** `sizeof` of each C++ type on an LP64 target; `sizeof(c10::Half)` is a
      parameter because the struct's layout is not part of this model. */
  function SizeOf(c: CppType, halfSize: nat): nat {
    match c
    case U8 => 1 case I8 => 1 case CppBool => 1
    case I16 => 2 case U16 => 2
    case I32 => 4 case U32 => 4 case F32 => 4
    case I64 => 8 case U64 => 8 case F64 => 8
    case HalfStruct => halfSize
  }

  /** `elementSize`: the size of the listed C++ type; `Undefined` and
      `NumOptions` fail with "Unknown scalar type". */
  function ElementSize(t: ScalarType, halfSize: nat): (r: Result<nat, string>)
    ensures r.Ok? <==> IsListed(t)
    ensures r.Ok? ==> r.value == SizeOf(CppTypeOf(t).value, halfSize)
    ensures r.Err? ==> r.error == "Unknown scalar type"
  {
    match t
    case Byte => Ok(1) case Char => Ok(1) case Short => Ok(2) case Int => Ok(4)
    case Long => Ok(8) case Half => Ok(halfSize) case Float => Ok(4) case Double => Ok(8)
    case Bool => Ok(1) case UInt16 => Ok(2) case UInt32 => Ok(4) case UInt64 => Ok(8)
    case Undefined => Err("Unknown scalar type") case NumOptions => Err("Unknown scalar type")
  }

  /** `isIntegralType(t, includeBool)`. */
  predicate IsIntegralType(t: ScalarType, includeBool: bool)
    ensures IsIntegralType(t, includeBool) ==> IsListed(t) && CppTypeOf(t).Some?
    ensures t == Bool ==> (IsIntegralType(t, includeBool) <==> includeBool)
  {
    var isIntegral := t == Byte || t == Char || t == Int || t == Long || t == Short
      || t == UInt16 || t == UInt32 || t == UInt64;
    isIntegral || (includeBool && t == Bool)
  }

  /** `isReducedFloatingType(t)`. */
  predicate IsReducedFloatingType(t: ScalarType)
    ensures IsReducedFloatingType(t) <==> CppTypeOf(t) == Some(HalfStruct)
  {
    t == Half
  }

  /** `isFloatingType(t)`. */
  predicate IsFloatingType(t: ScalarType)
    ensures IsFloatingType(t) ==> IsListed(t) && t != Bool && IntegerRange(CppTypeOf(t).value).None?
  {
    t == Float || t == Double || IsReducedFloatingType(t)
  }

  /** The value range `[lo, hi]` of each C++ integer type, `None` for the
      others: the reference the integral entries are checked against. */
  function IntegerRange(c: CppType): (r: Option<(int, int)>)
  {
    match c
    case U8 => Some((0, 0xFF)) case U16 => Some((0, 0xFFFF))
    case U32 => Some((0, 0xFFFF_FFFF)) case U64 => Some((0, 0xFFFF_FFFF_FFFF_FFFF))
    case I8 => Some((-0x80, 0x7F)) case I16 => Some((-0x8000, 0x7FFF))
    case I32 => Some((-0x8000_0000, 0x7FFF_FFFF))
    case I64 => Some((-0x8000_0000_0000_0000, 0x7FFF_FFFF_FFFF_FFFF))
    case HalfStruct => None case F32 => None case F64 => None case CppBool => None
  }

  /** The integral types are exactly the listed types whose C++ type is an
      integer type; Bool joins them only when `includeBool` is set. */
  lemma IntegralClassification(t: ScalarType, includeBool: bool)
    ensures IsIntegralType(t, false) <==> IsListed(t) && IntegerRange(CppTypeOf(t).value).Some?
    ensures IsIntegralType(t, includeBool) <==> IsIntegralType(t, false) || (includeBool && t == Bool)
    ensures IsIntegralType(t, true) ==> IsListed(t)
  {
  }

  /** The element size of an integral type is the byte width of its range:
      the range holds exactly 2^(8 * size) values. */
  lemma IntegralSizeMatchesRange(t: ScalarType, halfSize: nat)
    requires IsIntegralType(t, false)
    ensures var (lo, hi) := IntegerRange(CppTypeOf(t).value).value;
      hi - lo + 1 == Pow2(8 * ElementSize(t, halfSize).value)
  {
    ByteWidthPow2(ElementSize(t, halfSize).value);
  }

  /** `2^(8 * n)` for the integer sizes 1, 2, 4 and 8. */
  lemma ByteWidthPow2(n: nat)
    requires n == 1 || n == 2 || n == 4 || n == 8
    ensures Pow2(8 * n) == if n == 1 then 0x100 else if n == 2 then 0x1_0000
                         else if n == 4 then 0x1_0000_0000 else 0x1_0000_0000_0000_0000
  {
    Pow2Bytes();
  }

  /** Powers of two at whole-byte widths. */
  lemma Pow2Bytes()
    ensures Pow2(8) == 0x100 && Pow2(16) == 0x1_0000 && Pow2(32) == 0x1_0000_0000
    ensures Pow2(64) == 0x1_0000_0000_0000_0000
  {
    assert Pow2(4) == 16;
    Pow2Add(4, 4);
    Pow2Add(8, 8);
    Pow2Add(16, 16);
    Pow2Add(32, 32);
  }

  /** The floating types are Float, Double and Half; the reduced one is Half. */
  lemma FloatingClassification(t: ScalarType)
    ensures IsFloatingType(t) <==> t in {Float, Double, Half}
    ensures IsReducedFloatingType(t) <==> t == Half
    ensures IsReducedFloatingType(t) ==> IsFloatingType(t)
  {
  }

  /** Every listed type is exactly one of integral, floating or Bool;
      `Undefined` and `NumOptions` are none of them. */
  lemma ClassesPartition(t: ScalarType)
    ensures !(IsIntegralType(t, true) && IsFloatingType(t))
    ensures IsListed(t) <==> IsIntegralType(t, false) || IsFloatingType(t) || t == Bool
    ensures IsIntegralType(t, false) ==> !IsFloatingType(t) && t != Bool
  {
  }
}
