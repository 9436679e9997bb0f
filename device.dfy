/** c10/core/Device.h and c10/core/device.cpp: a device is a device type and
    an index (-1 for "no index"); construction validates the pair, devices
    hash to a packed 32-bit word, print as "cuda:1" and are parsed back from
    such strings by a character-by-character state machine. */
module Devices {
  import opened Wrappers
  import opened BitsUtil
  import opened Words
  import opened Decimals
  import opened DeviceTypes

  /** `DeviceIndex`, an `int8_t`. */
  type DeviceIndex = x: int | -128 <= x < 128

  /** `INT_MAX`, beyond which `std::stoi` throws `out_of_range`. */
  const IntMax: int := 0x7FFF_FFFF

  /** `static_cast<int8_t>` of an `int`: two's-complement wrap-around. */
  function ToInt8(v: int): (r: DeviceIndex)
    ensures (r - v) % 256 == 0
    ensures -128 <= v < 128 ==> r == v
  {
    (v + 128) % 256 - 128
  }

  /** `static_cast<uint8_t>` of an `int8_t`. */
  function ToUint8(i: DeviceIndex): (r: nat)
    ensures r < 256 && (r - i) % 256 == 0
    ensures i >= 0 ==> r == i
  {
    i % 256
  }

  // ---------------------------------------------------------------------
  // Characters and decimal text
  // ---------------------------------------------------------------------

  /** `isalpha(ch) or ch == '_'`: the characters a device name is made of. */
  predicate IsNameChar(c: char) {
    'a' <= c <= 'z' || 'A' <= c <= 'Z' || c == '_'
  }

  predicate AllDigits(s: string) {
    forall i :: 0 <= i < |s| ==> IsDigit(s[i])
  }

  /** The value of a digit string, most significant digit first, as
      `std::stoi` reads it (without the `int` range check). */
  function DecimalValue(s: string): nat
    requires AllDigits(s)
  {
    if s == [] then 0 else DecimalValue(s[..|s| - 1]) * 10 + DigitValue(s[|s| - 1])
  }

  /** The digit strings the parser lets through: non-empty, and no leading
      '0' unless the string is "0" itself. */
  predicate Canonical(s: string) {
    |s| > 0 && AllDigits(s) && (s[0] == '0' ==> |s| == 1)
  }

  /** Printing a number gives a canonical digit string with that value. */
  lemma {:induction false} NatToStringCanonical(n: nat)
    ensures Canonical(NatToString(n)) && DecimalValue(NatToString(n)) == n
    decreases n
  {
    if n >= 10 {
      NatToStringCanonical(n / 10);
      var p := NatToString(n / 10);
      var s := p + [DigitChar(n % 10)];
      assert s[..|s| - 1] == p;
      assert s[0] == p[0];
      assert p[0] != '0';
    }
  }

  /** A digit string not starting with '0' denotes a positive number. */
  lemma {:induction false} LeadingDigitPositive(s: string)
    requires |s| > 0 && AllDigits(s) && s[0] != '0'
    ensures DecimalValue(s) >= 1
    decreases |s|
  {
    if |s| > 1 {
      var p := s[..|s| - 1];
      assert p[0] == s[0];
      LeadingDigitPositive(p);
    } else {
      assert s[..0] == [];
    }
  }

  /** Reading a canonical digit string and printing the value gives the
      string back. */
  lemma {:induction false} CanonicalRoundTrip(s: string)
    requires Canonical(s)
    ensures NatToString(DecimalValue(s)) == s
    decreases |s|
  {
    var p := s[..|s| - 1];
    var d := DigitValue(s[|s| - 1]);
    if |s| == 1 {
      assert p == [];
      assert DigitChar(d) == s[0];
    } else {
      assert p[0] == s[0];
      LeadingDigitPositive(p);
      CanonicalRoundTrip(p);
      var v := DecimalValue(p);
      assert DecimalValue(s) == v * 10 + d;
      assert (v * 10 + d) / 10 == v && (v * 10 + d) % 10 == d;
      assert NatToString(v * 10 + d) == NatToString(v) + [DigitChar(d)];
      assert DigitChar(d) == s[|s| - 1];
      assert s == p + [s[|s| - 1]];
    }
  }

  // ---------------------------------------------------------------------
  // Device.h: validation and the device object
  // ---------------------------------------------------------------------

  /** `validate()`: the message of the first `TORCH_CHECK` that fails, or
      `None` when both hold. */
  function ValidationError(t: DeviceType, index: DeviceIndex): (r: Option<string>)
    ensures r.None? <==> index >= -1 && (t == CPU ==> index <= 0)
    ensures index < -1 ==> r == Some("Device index must be -1 or non-negative, got " + IntToString(index))
    ensures index >= -1 && t == CPU && index > 0 ==>
      r == Some("CPU device index must be -1 or 0, got " + IntToString(index))
  {
    if index < -1 then Some("Device index must be -1 or non-negative, got " + IntToString(index))
    else if t == CPU && index > 0 then Some("CPU device index must be -1 or 0, got " + IntToString(index))
    else None
  }

  /** `parse_type`: looks the name up in the table {"cpu" -> CPU, "cuda" -> CUDA}. */
  function ParseType(name: string): (r: Result<DeviceType, string>)
    ensures r.Ok? <==> name == "cpu" || name == "cuda"
    ensures r.Ok? ==> IsValidDeviceType(r.value) && DeviceTypeName(r.value, true) == name
    ensures r.Err? ==> r.error == "Invalid device name: '" + name + "'. Available device names are: cpu, cuda"
  {
    if name == "cpu" then Ok(CPU)
    else if name == "cuda" then Ok(CUDA)
    else Err("Invalid device name: '" + name + "'. Available device names are: cpu, cuda")
  }

  /** Every valid device type's lower-case name is in the parser's table
      and maps back to that type. */
  lemma ParseTypeOfName(t: DeviceType)
    requires IsValidDeviceType(t)
    ensures ParseType(DeviceTypeName(t, true)) == Ok(t)
  {
    if t == CPU {
      assert DeviceTypeName(t, true) == "cpu";
    } else {
      assert DeviceTypeName(t, true) == "cuda";
      assert "cuda" != "cpu";
    }
  }

  /** `struct Device`: the type and the index. */
  class Device {
    var deviceType: DeviceType
    var index: DeviceIndex

    /** The member initialisers `type_(type), index_(index)`, before
        `validate()` runs. */
    constructor Init(t: DeviceType, index: DeviceIndex)
      ensures this.deviceType == t && this.index == index
    {
      this.deviceType := t;
      this.index := index;
    }

    /** `Device(type, index)`: the pair is stored and validated; a failing
        check throws, which is the error result here. */
    static method Make(t: DeviceType, index: DeviceIndex) returns (r: Result<Device, string>)
      ensures r.Ok? <==> ValidationError(t, index).None?
      ensures r.Err? ==> Some(r.error) == ValidationError(t, index)
      ensures r.Ok? ==> fresh(r.value) && r.value.deviceType == t && r.value.index == index
    {
      var d := new Device.Init(t, index);
      var e := d.Validate();
      if e.Some? {
        return Err(e.value);
      }
      return Ok(d);
    }

    /** `Device(type)`: the index defaults to -1, which always validates. */
    static method OfType(t: DeviceType) returns (d: Device)
      ensures fresh(d) && d.deviceType == t && d.index == -1 && !d.HasIndex()
    {
      d := new Device.Init(t, -1);
    }

    /** `validate()` on this device. */
    function Validate(): (r: Option<string>)
      reads this
      ensures r == ValidationError(deviceType, index)
    {
      ValidationError(deviceType, index)
    }

    /** `operator==`: field-wise comparison. */
    predicate Equals(rhs: Device)
      reads this, rhs
      ensures Equals(rhs) ==> Hash() == rhs.Hash() && Str() == rhs.Str()
      ensures Equals(rhs) <==> deviceType == rhs.deviceType && index == rhs.index
    {
      deviceType == rhs.deviceType && index == rhs.index
    }

    /** `operator!=`. */
    predicate NotEquals(rhs: Device)
      reads this, rhs
      ensures NotEquals(rhs) <==> !Equals(rhs)
    {
      !Equals(rhs)
    }

    /** `set_index`: replaces the index without validating it. */
    method SetIndex(i: DeviceIndex)
      modifies this
      ensures index == i && deviceType == old(deviceType)
    {
      index := i;
    }

    /** `has_index()`. */
    predicate HasIndex()
      reads this
      ensures HasIndex() <==> index != -1
    {
      index != -1
    }

    /** `is_cuda()`. */
    predicate IsCuda()
      reads this
      ensures IsCuda() <==> deviceType == CUDA
    {
      deviceType == CUDA
    }

    /** `is_cpu()`. */
    predicate IsCpu()
      reads this
      ensures IsCpu() <==> deviceType == CPU
    {
      deviceType == CPU
    }

    /** `support_as_strided()`: always false. */
    predicate SupportAsStrided()
      reads this
      ensures !SupportAsStrided()
    {
      false
    }

    /** `str()`: the lower-case type name, then ":" and the index when
        there is one. */
    function Str(): (r: string)
      reads this
      ensures r == DeviceStr(deviceType, index)
      ensures HasIndex() <==> r != DeviceTypeName(deviceType, true)
    {
      DeviceStr(deviceType, index)
    }

    /** `std::hash<Device>`: the type byte shifted to bit 16, or-ed with the
        index byte (the `std::hash<uint32_t>` of the word is taken to be the
        word itself). */
    function Hash(): (h: nat)
      reads this
      ensures h < 0x1_0000_0000
      ensures h == deviceType as nat * 0x1_0000 + ToUint8(index)
    {
      PackedWord(deviceType as nat, ToUint8(index));
      Or(deviceType as nat * 0x1_0000, ToUint8(index))
    }
  }

  /** A byte or-ed below bit 16 of a shifted value is added to it. */
  lemma PackedWord(a: nat, b: nat)
    requires b < 0x100
    ensures Or(a * 0x1_0000, b) == a * 0x1_0000 + b
  {
    assert Pow2(4) == 16;
    Pow2Add(4, 4);
    Pow2Add(8, 8);
    OrSplit(a, 0, 0, b, 16);
  }

  /** The text `str()` builds for a type and an index. */
  function DeviceStr(t: DeviceType, index: DeviceIndex): (r: string)
    ensures |DeviceTypeName(t, true)| <= |r| && r[..|DeviceTypeName(t, true)|] == DeviceTypeName(t, true)
    ensures index == -1 <==> r == DeviceTypeName(t, true)
  {
    DeviceTypeName(t, true) + (if index != -1 then ":" + IntToString(index) else "")
  }

  /** Construction through `validate` rejects exactly an index below -1
      and a CPU index above 0. */
  lemma ValidationCases(t: DeviceType, index: DeviceIndex)
    ensures ValidationError(t, index).Some? <==> index < -1 || (t == CPU && index > 0)
    ensures ValidationError(CUDA, index).None? <==> index >= -1
    ensures ValidationError(CPU, index).None? <==> index == -1 || index == 0
    ensures ValidationError(t, -1).None?
  {
  }

  /** `!=` is the negation of `==`, and `==` is an equivalence. */
  lemma EqualityLaws(a: Device, b: Device, c: Device)
    ensures a.Equals(a)
    ensures a.Equals(b) <==> b.Equals(a)
    ensures a.Equals(b) && b.Equals(c) ==> a.Equals(c)
    ensures a.NotEquals(b) <==> !a.Equals(b)
  {
  }

  /** Two devices with the same hash are equal: the packing is injective. */
  lemma HashInjective(a: Device, b: Device)
    requires a.Hash() == b.Hash()
    ensures a.Equals(b)
  {
    var ha, hb := ToUint8(a.index), ToUint8(b.index);
    DivExact(a.Hash(), 0x1_0000, a.deviceType as int, ha);
    DivExact(b.Hash(), 0x1_0000, b.deviceType as int, hb);
    assert a.deviceType == b.deviceType && ha == hb;
    assert (a.index - b.index) % 256 == 0;
  }

  // ---------------------------------------------------------------------
  // device.cpp: the device-string grammar and the parser's result
  // ---------------------------------------------------------------------

  /** The position of the first ':' in `s`, or `|s|` when there is none. */
  function ColonAt(s: string): (k: nat)
    ensures k <= |s| && (k < |s| ==> s[k] == ':')
    ensures forall i :: 0 <= i < k ==> s[i] != ':'
  {
    if s == [] then 0 else if s[0] == ':' then 0 else 1 + ColonAt(s[1..])
  }

  /** The strings the state machine ends on without error: a non-empty
      name of letters and '_', then optionally ':' and a canonical digit
      string. */
  predicate WellFormed(s: string) {
    var k := ColonAt(s);
    0 < k && (forall i :: 0 <= i < k ==> IsNameChar(s[i])) && (k < |s| ==> Canonical(s[k + 1..]))
  }

  /** The name before the first ':'. */
  function NamePart(s: string): string {
    s[..ColonAt(s)]
  }

  /** The digits after the first ':', or "" when there is no ':'. */
  function IndexPart(s: string): (r: string)
    ensures WellFormed(s) ==> r == [] || Canonical(r)
  {
    var k := ColonAt(s);
    if k < |s| then s[k + 1..] else ""
  }

  /** What `Device(const std::string&)` produces, stated over the grammar:
      the checks in the order the constructor makes them, with the
      `int8_t` narrowing of the `stoi` value. */
  function ParseDevice(s: string): (r: Result<(DeviceType, DeviceIndex), string>)
    ensures s == [] ==> r == Err("Device string is empty")
    ensures s != [] && !WellFormed(s) ==> r == Err("Invalid device string: '" + s + "'")
    ensures r.Ok? ==> WellFormed(s) && ParseType(NamePart(s)) == Ok(r.value.0)
    ensures r.Ok? ==> ValidationError(r.value.0, r.value.1).None?
    ensures r.Ok? && IndexPart(s) == [] ==> r.value.1 == -1
  {
    if s == [] then Err("Device string is empty")
    else if !WellFormed(s) then Err("Invalid device string: '" + s + "'")
    else
      var name, digits := NamePart(s), IndexPart(s);
      if digits != [] && DecimalValue(digits) > IntMax then
        Err("Invalid device index: '" + digits + "' in device string: '" + s + "'")
      else
        var index := if digits == [] then -1 else ToInt8(DecimalValue(digits));
        TypeAndValidate(name, index)
  }

  /** The constructor's last two steps: `parse_type` of the name, then
      `validate()` of the type with the index. */
  function TypeAndValidate(name: string, index: DeviceIndex): (r: Result<(DeviceType, DeviceIndex), string>)
    ensures r.Ok? <==> ParseType(name).Ok? && ValidationError(ParseType(name).value, index).None?
    ensures r.Ok? ==> r.value == (ParseType(name).value, index)
  {
    match ParseType(name)
    case Err(e) => Err(e)
    case Ok(t) =>
      match ValidationError(t, index)
      case Some(e) => Err(e)
      case None => Ok((t, index))
  }

  /** Where the parser accepts, the string is well formed, its name is
      "cpu" or "cuda", and the result passes `validate`. */
  lemma ParseAccepts(s: string)
    requires ParseDevice(s).Ok?
    ensures WellFormed(s) && (NamePart(s) == "cpu" || NamePart(s) == "cuda")
    ensures ParseDevice(s).value.0 == ParseType(NamePart(s)).value
    ensures ValidationError(ParseDevice(s).value.0, ParseDevice(s).value.1).None?
    ensures IndexPart(s) == [] ==> ParseDevice(s).value.1 == -1
    ensures IndexPart(s) != [] ==>
      DecimalValue(IndexPart(s)) <= IntMax && ParseDevice(s).value.1 == ToInt8(DecimalValue(IndexPart(s)))
  {
  }

  /** A character other than a letter or '_' before the first ':' is rejected. */
  lemma ParseRejectsBadName(s: string, i: nat)
    requires i < |s| && s[i] != ':' && !IsNameChar(s[i])
    requires forall j :: 0 <= j < i ==> s[j] != ':'
    ensures ParseDevice(s) == Err("Invalid device string: '" + s + "'")
  {
    assert ColonAt(s) > i;
  }

  /** A ':' with nothing after it is rejected ("cuda:"). */
  lemma ParseRejectsEmptyIndex(s: string)
    requires |s| > 0 && s[|s| - 1] == ':'
    requires forall j :: 0 <= j < |s| - 1 ==> s[j] != ':'
    ensures ParseDevice(s) == Err("Invalid device string: '" + s + "'")
  {
    assert ColonAt(s) == |s| - 1;
  }

  /** A multi-digit index with a leading '0' is rejected ("cuda:01"). */
  lemma ParseRejectsLeadingZero(s: string, name: string, digits: string)
    requires s == name + ":" + digits
    requires forall j :: 0 <= j < |name| ==> name[j] != ':'
    requires |digits| > 1 && digits[0] == '0'
    ensures ParseDevice(s) == Err("Invalid device string: '" + s + "'")
  {
    ColonAtJoin(name, digits);
    assert s[|name| + 1..] == digits;
  }

  /** The first ':' of `name + ":" + digits`, when `name` has none, is
      right after the name. */
  lemma ColonAtJoin(name: string, rest: string)
    requires forall j :: 0 <= j < |name| ==> name[j] != ':'
    ensures ColonAt(name + ":" + rest) == |name|
    ensures (name + ":" + rest)[..|name|] == name && (name + ":" + rest)[|name| + 1..] == rest
  {
    var s := name + ":" + rest;
    var k := ColonAt(s);
    assert s[|name|] == ':';
  }

  /** A non-empty name followed by ':' and a canonical digit string is well
      formed and splits back into the two. */
  lemma SplitWithIndex(name: string, digits: string)
    requires |name| > 0 && (forall j :: 0 <= j < |name| ==> IsNameChar(name[j]))
    requires Canonical(digits)
    ensures WellFormed(name + (":" + digits))
    ensures NamePart(name + (":" + digits)) == name && IndexPart(name + (":" + digits)) == digits
  {
    ColonAtJoin(name, digits);
    assert name + ":" + digits == name + (":" + digits);
  }

  /** A non-empty name alone is well formed, with an empty index part. */
  lemma SplitWithoutIndex(name: string)
    requires |name| > 0 && (forall j :: 0 <= j < |name| ==> IsNameChar(name[j]))
    ensures WellFormed(name) && NamePart(name) == name && IndexPart(name) == []
  {
    assert ColonAt(name) == |name|;
  }

  /** The lower-case name of a valid type is made of name characters. */
  lemma ValidTypeName(t: DeviceType)
    requires IsValidDeviceType(t)
    ensures var name := DeviceTypeName(t, true);
      |name| > 0 && (forall j :: 0 <= j < |name| ==> IsNameChar(name[j]))
      && ParseType(name) == Ok(t)
  {
    ParseTypeOfName(t);
  }

  /** A well-formed string whose parts are a valid type's name and the
      digits of a valid index (or none) parses, with or without the index
      check, to that device. */
  lemma ParseParts(s: string, t: DeviceType, i: DeviceIndex)
    requires IsValidDeviceType(t) && ValidationError(t, i).None?
    requires s != [] && WellFormed(s) && ParseType(NamePart(s)) == Ok(t)
    requires i == -1 ==> IndexPart(s) == []
    requires i != -1 ==> IndexPart(s) != [] && DecimalValue(IndexPart(s)) == i
    ensures ParseDevice(s) == Ok((t, i)) && ParseDeviceChecked(s) == Ok((t, i))
  {
  }

  /** The printed form of a valid device is split into the type's name and
      the index's digits. */
  lemma PrintedParts(t: DeviceType, i: DeviceIndex)
    requires IsValidDeviceType(t) && ValidationError(t, i).None?
    ensures var s := DeviceStr(t, i);
      s != [] && WellFormed(s) && ParseType(NamePart(s)) == Ok(t)
      && (i == -1 ==> IndexPart(s) == [])
      && (i != -1 ==> IndexPart(s) != [] && DecimalValue(IndexPart(s)) == i)
  {
    var name := DeviceTypeName(t, true);
    ValidTypeName(t);
    if i != -1 {
      var digits := NatToString(i);
      NatToStringCanonical(i);
      SplitWithIndex(name, digits);
    } else {
      SplitWithoutIndex(name);
      assert DeviceStr(t, i) == name;
    }
  }

  /** Parsing the printed form of a valid device gives back that device. */
  lemma ParseStrRoundTrip(t: DeviceType, i: DeviceIndex)
    requires IsValidDeviceType(t) && ValidationError(t, i).None?
    ensures ParseDevice(DeviceStr(t, i)) == Ok((t, i))
  {
    PrintedParts(t, i);
    ParseParts(DeviceStr(t, i), t, i);
  }

  /** The strings the device test parses: "cpu" and "cuda:1". */
  lemma ParseAcceptedScenarios()
    ensures ParseDevice("cpu") == Ok((CPU, -1))
    ensures ParseDevice("cuda:1") == Ok((CUDA, 1))
  {
    ParseStrRoundTrip(CPU, -1);
    assert DeviceStr(CPU, -1) == "cpu";
    ParseStrRoundTrip(CUDA, 1);
    assert IntToString(1) == "1";
    assert DeviceStr(CUDA, 1) == "cuda:1";
  }

  /** "cuda:01", the error case of the device test, is rejected. */
  lemma ParseLeadingZeroScenario()
    ensures ParseDevice("cuda:01").Err?
  {
    var name := "cuda";
    assert forall j :: 0 <= j < |name| ==> name[j] != ':';
    assert name + ":" + "01" == "cuda:01";
    ParseRejectsLeadingZero("cuda:01", name, "01");
  }

  /** "cpu:1" is well formed but fails `validate`. */
  lemma ParseCpuIndexScenario()
    ensures ParseDevice("cpu:1") == Err("CPU device index must be -1 or 0, got " + IntToString(1))
  {
    var name := "cpu";
    assert forall j :: 0 <= j < |name| ==> name[j] != ':';
    ColonAtJoin(name, "1");
    assert "cpu:1" == name + ":" + "1";
    assert DecimalValue("1") == 1 by {
      assert "1"[..0] == [];
    }
    assert WellFormed("cpu:1") && NamePart("cpu:1") == "cpu" && IndexPart("cpu:1") == "1";
  }

  /** The empty string, an unknown name and a missing index are rejected. */
  lemma ParseRejectedScenarios()
    ensures ParseDevice("") == Err("Device string is empty")
    ensures ParseDevice("tpu") == Err("Invalid device name: '" + "tpu" + "'. Available device names are: cpu, cuda")
    ensures ParseDevice("cuda:") == Err("Invalid device string: '" + "cuda:" + "'")
  {
    var tpu := "tpu";
    assert ColonAt(tpu) == 3 by {
      assert tpu[1..][1..][1..] == [];
    }
    assert tpu[..3] == tpu;
    assert WellFormed(tpu) && NamePart(tpu) == tpu && IndexPart(tpu) == [];
    assert ParseType(tpu).Err?;
    ParseRejectsEmptyIndex("cuda:");
  }

  // ---------------------------------------------------------------------
  // device.cpp: the parser as written
  // ---------------------------------------------------------------------

  /** `DeviceStringParsingState`. */
  datatype ParsingState = Start | IndexStart | IndexRest | Error

  /** What reading `s[..i]` has established in each state: the name read
      so far is the start of `s` before the first ':', the digits follow it,
      and the error state is only reached on strings that are not well formed. */
  ghost predicate Scanned(s: string, i: nat, state: ParsingState, name: string, digits: string) {
    i <= |s| && (forall j :: 0 <= j < |name| ==> IsNameChar(name[j]))
    && match state
       case Start => i <= ColonAt(s) && name == s[..i] && digits == []
       case IndexStart => ColonAt(s) == |name| && i == |name| + 1 && name == s[..|name|] && digits == []
       case IndexRest =>
         ColonAt(s) == |name| && i == |name| + 1 + |digits| && name == s[..|name|]
         && digits == s[|name| + 1..i] && Canonical(digits)
       case Error => !WellFormed(s)
  }

  /** The state machine over the characters and the `has_error` test that
      follows it: it succeeds exactly on well-formed strings, and then the
      collected name and digits are the two parts of the grammar. */
  method ScanDeviceString(s: string) returns (name: string, digits: string, ok: bool)
    requires s != []
    ensures ok <==> WellFormed(s)
    ensures ok ==> name == NamePart(s) && digits == IndexPart(s)
  {
    name, digits := "", "";
    var state := Start;
    var i := 0;
    while state != Error && i < |s|
      invariant Scanned(s, i, state, name, digits)
      decreases |s| - i, if state == Error then 0 else 1
    {
      var ch := s[i];
      match state {
        case Start =>
          if ch != ':' {
            if IsNameChar(ch) {
              ScanNameChar(s, i, name, digits);
              name := name + [ch];
            } else {
              ColonAtAfter(s, i);
              BadNameChar(s, i);
              ScanFails(s, i, state, name, digits);
              state := Error;
            }
          } else {
            ScanColon(s, i, name, digits);
            state := IndexStart;
          }
        case IndexStart =>
          if IsDigit(ch) {
            ScanFirstDigit(s, i, name, digits);
            digits := digits + [ch];
            state := IndexRest;
          } else {
            BadIndexChar(s, i);
            ScanFails(s, i, state, name, digits);
            state := Error;
          }
        case IndexRest =>
          if digits[0] == '0' {
            LeadingZeroIndex(s, i);
            ScanFails(s, i, state, name, digits);
            state := Error;
          } else if IsDigit(ch) {
            ScanDigit(s, i, name, digits);
            digits := digits + [ch];
          } else {
            BadIndexChar(s, i);
            ScanFails(s, i, state, name, digits);
            state := Error;
          }
      }
      i := i + 1;
    }
    ok := !(name == [] || state == Error || (state == IndexStart && digits == []));
    if state == Start {
      assert name == s;
      SplitWithoutIndex(s);
    } else if state == IndexStart {
      EndAfterColon(s);
    } else if state == IndexRest {
      EndInDigits(s, name, digits);
    }
  }

  /** A name character before the first ':' extends the name. */
  lemma ScanNameChar(s: string, i: nat, name: string, digits: string)
    requires Scanned(s, i, Start, name, digits) && i < |s| && s[i] != ':' && IsNameChar(s[i])
    ensures Scanned(s, i + 1, Start, name + [s[i]], digits)
  {
    ColonAtAfter(s, i);
    assert s[..i + 1] == s[..i] + [s[i]];
  }

  /** The first ':' ends the name. */
  lemma ScanColon(s: string, i: nat, name: string, digits: string)
    requires Scanned(s, i, Start, name, digits) && i < |s| && s[i] == ':'
    ensures Scanned(s, i + 1, IndexStart, name, digits)
  {
    ColonAtFirst(s, i);
  }

  /** A digit right after the ':' starts the index. */
  lemma ScanFirstDigit(s: string, i: nat, name: string, digits: string)
    requires Scanned(s, i, IndexStart, name, digits) && i < |s| && IsDigit(s[i])
    ensures Scanned(s, i + 1, IndexRest, name, digits + [s[i]])
  {
    assert s[|name| + 1..i + 1] == [s[i]];
  }

  /** A further digit after a first digit other than '0' extends the index. */
  lemma ScanDigit(s: string, i: nat, name: string, digits: string)
    requires Scanned(s, i, IndexRest, name, digits) && i < |s| && digits[0] != '0' && IsDigit(s[i])
    ensures Scanned(s, i + 1, IndexRest, name, digits + [s[i]])
  {
    CanonicalAppend(digits, s[i]);
    assert s[|name| + 1..i + 1] == s[|name| + 1..i] + [s[i]];
  }

  /** Any character may lead to the error state once the string is known to be bad. */
  lemma ScanFails(s: string, i: nat, state: ParsingState, name: string, digits: string)
    requires Scanned(s, i, state, name, digits) && i < |s| && !WellFormed(s)
    ensures Scanned(s, i + 1, Error, name, digits)
  {
  }

  /** A digit appended to digits that do not start with '0' keeps them canonical. */
  lemma CanonicalAppend(digits: string, ch: char)
    requires Canonical(digits) && digits[0] != '0' && IsDigit(ch)
    ensures Canonical(digits + [ch])
  {
  }

  /** A character other than ':' at or before the first ':' is before it. */
  lemma ColonAtAfter(s: string, i: nat)
    requires i < |s| && s[i] != ':' && i <= ColonAt(s)
    ensures i < ColonAt(s)
  {
  }

  /** A ':' at or before the first ':' is the first ':'. */
  lemma ColonAtFirst(s: string, i: nat)
    requires i < |s| && s[i] == ':' && i <= ColonAt(s)
    ensures ColonAt(s) == i
  {
  }

  /** A character in the name that is not a name character spoils the string. */
  lemma BadNameChar(s: string, i: nat)
    requires i < ColonAt(s) && !IsNameChar(s[i])
    ensures !WellFormed(s)
  {
  }

  /** A non-digit after the first ':' spoils the string. */
  lemma BadIndexChar(s: string, i: nat)
    requires ColonAt(s) < i < |s| && !IsDigit(s[i])
    ensures !WellFormed(s)
  {
    var k := ColonAt(s);
    assert s[k + 1..][i - k - 1] == s[i];
  }

  /** A '0' followed by more characters after the first ':' spoils the string. */
  lemma LeadingZeroIndex(s: string, i: nat)
    requires ColonAt(s) + 1 < i < |s| && s[ColonAt(s) + 1] == '0'
    ensures !WellFormed(s)
  {
    var k := ColonAt(s);
    assert s[k + 1..][0] == '0' && |s[k + 1..]| > 1;
  }

  /** A string whose first ':' is its last character is not well formed. */
  lemma EndAfterColon(s: string)
    requires |s| > 0 && ColonAt(s) == |s| - 1
    ensures !WellFormed(s)
  {
    assert s[|s|..] == [];
  }

  /** A string read up to its end in the digits is well formed exactly when
      the name before the ':' is not empty, and then splits into the name
      and the digits. */
  lemma EndInDigits(s: string, name: string, digits: string)
    requires ColonAt(s) == |name| && |s| == |name| + 1 + |digits| && name == s[..|name|]
    requires digits == s[|name| + 1..] && Canonical(digits)
    requires forall j :: 0 <= j < |name| ==> IsNameChar(name[j])
    ensures WellFormed(s) <==> name != []
    ensures name != [] ==> NamePart(s) == name && IndexPart(s) == digits
  {
  }

  /** `Device(const std::string&)`: the scan, the `stoi` value narrowed to
      `int8_t`, `parse_type` and `validate`. Each thrown `TORCH_CHECK` is
      the error result. */
  method FromString(s: string) returns (r: Result<Device, string>)
    ensures r.Ok? <==> ParseDevice(s).Ok?
    ensures r.Err? ==> r.error == ParseDevice(s).error
    ensures r.Ok? ==> fresh(r.value) && (r.value.deviceType, r.value.index) == ParseDevice(s).value
  {
    var d := Device.OfType(CPU);
    if s == [] {
      return Err("Device string is empty");
    }
    var name, digits, ok := ScanDeviceString(s);
    if !ok {
      return Err("Invalid device string: '" + s + "'");
    }
    if digits != [] {
      var v := DecimalValue(digits);
      if v > IntMax {
        return Err("Invalid device index: '" + digits + "' in device string: '" + s + "'");
      }
      d.index := ToInt8(v);
    }
    var t := ParseType(name);
    if t.Err? {
      return Err(t.error);
    }
    d.deviceType := t.value;
    var e := d.Validate();
    if e.Some? {
      return Err(e.value);
    }
    return Ok(d);
  }

  /** The device test, constructed devices: `Device(CPU, 0)` and
      `Device(CUDA, 1)` print as "cpu:0" and "cuda:1". */
  method ConstructedScenario() returns (printed: seq<string>)
    ensures printed == ["cpu:0", "cuda:1"]
  {
    var device := Device.Make(CPU, 0);
    var device2 := Device.Make(CUDA, 1);
    assert IntToString(0) == "0" && IntToString(1) == "1";
    var s1, s2 := device.value.Str(), device2.value.Str();
    assert s1 == "cpu" + ":" + "0";
    assert s2 == "cuda" + ":" + "1";
    assert "cpu" + ":" + "0" == "cpu:0" && "cuda" + ":" + "1" == "cuda:1";
    printed := [s1, s2];
  }

  /** The device test, parsed devices: "cpu" and "cuda:1" print back
      unchanged, and "cuda:01" is a parse error. */
  method ParsedScenario() returns (printed: seq<string>, badIsError: bool)
    ensures printed == ["cpu", "cuda:1"] && badIsError
  {
    ParseAcceptedScenarios();
    ParseLeadingZeroScenario();
    var device3 := FromString("cpu");
    var device4 := FromString("cuda:1");
    var device5 := FromString("cuda:01");
    assert IntToString(1) == "1";
    var s3, s4 := device3.value.Str(), device4.value.Str();
    assert s3 == "cpu";
    assert s4 == "cuda" + ":" + "1";
    assert "cuda" + ":" + "1" == "cuda:1";
    printed := [s3, s4];
    badIsError := device5.Err?;
  }

  // ---------------------------------------------------------------------
  // The int8_t narrowing of the index
  // ---------------------------------------------------------------------

  /** As written, an index above 127 wraps around instead of being
      rejected: "cuda:256" parses as CUDA device 0, which prints as
      "cuda:0", "cuda:255" as the CUDA device with no index, and
      "cuda:201" as index -55, which `validate` turns into an error about
      a negative index. */
  lemma NarrowingAsWritten()
    ensures ParseDevice("cuda:256") == Ok((CUDA, 0))
    ensures ParseDevice("cuda:255") == Ok((CUDA, -1))
    ensures ParseDevice("cuda:201").Err?
  {
    Parse256();
    Parse255();
    Parse201();
  }

  lemma Parse256()
    ensures ParseDevice("cuda:256") == Ok((CUDA, 0))
  {
    assert ToInt8(256) == 0;
    ParseCudaThreeDigits("cuda:256", 2, 5, 6);
  }

  lemma Parse255()
    ensures ParseDevice("cuda:255") == Ok((CUDA, -1))
  {
    assert ToInt8(255) == -1;
    ParseCudaThreeDigits("cuda:255", 2, 5, 5);
  }

  lemma Parse201()
    ensures ParseDevice("cuda:201").Err?
  {
    assert ToInt8(201) == -55;
    ParseCudaThreeDigits("cuda:201", 2, 0, 1);
  }

  /** "cuda:" and three digits, the first not '0', parse to the narrowed
      value when that passes `validate`, and fail otherwise. */
  lemma ParseCudaThreeDigits(s: string, a: nat, b: nat, c: nat)
    requires 0 < a < 10 && b < 10 && c < 10
    requires s == "cuda:" + [DigitChar(a), DigitChar(b), DigitChar(c)]
    ensures var index := ToInt8(100 * a + 10 * b + c);
      (index >= -1 ==> ParseDevice(s) == Ok((CUDA, index))) && (index < -1 ==> ParseDevice(s).Err?)
  {
    var digits := [DigitChar(a), DigitChar(b), DigitChar(c)];
    Value3(digits, a, b, c);
    ParseCudaDigits(digits);
    assert s == "cuda" + (":" + digits);
  }

  /** "cuda:" followed by a canonical digit string within `int` range parses
      to the narrowed index, subject to `validate`. */
  lemma ParseCudaDigits(digits: string)
    requires Canonical(digits) && DecimalValue(digits) <= IntMax
    ensures var index := ToInt8(DecimalValue(digits));
      ParseDevice("cuda" + (":" + digits)) ==
        if index >= -1 then Ok((CUDA, index)) else Err(ValidationError(CUDA, index).value)
  {
    ValidTypeName(CUDA);
    SplitWithIndex("cuda", digits);
  }

  /** The value of a three-digit string. */
  lemma Value3(s: string, a: nat, b: nat, c: nat)
    requires a < 10 && b < 10 && c < 10
    requires s == [DigitChar(a), DigitChar(b), DigitChar(c)]
    ensures AllDigits(s) && DecimalValue(s) == 100 * a + 10 * b + c
  {
    assert s[..2] == [DigitChar(a), DigitChar(b)];
    assert s[..2][..1] == [DigitChar(a)];
    assert s[..2][..1][..0] == [];
    assert DecimalValue(s[..2][..1]) == a;
    assert DecimalValue(s[..2]) == 10 * a + b;
  }

  /** The parser with the evidently intended index check: a value that
      does not fit `DeviceIndex` is rejected like one `stoi` cannot
      represent, instead of being wrapped. */
  function ParseDeviceChecked(s: string): (r: Result<(DeviceType, DeviceIndex), string>)
    ensures r.Ok? ==> ParseDevice(s) == r
  {
    if s == [] then Err("Device string is empty")
    else if !WellFormed(s) then Err("Invalid device string: '" + s + "'")
    else
      var name, digits := NamePart(s), IndexPart(s);
      if digits != [] && DecimalValue(digits) > 127 then
        Err("Invalid device index: '" + digits + "' in device string: '" + s + "'")
      else ParseDevice(s)
  }

  /** With the index check, every accepted string is the printed form of
      the device it parses to: parsing is injective and loses nothing. */
  lemma PrintParseChecked(s: string, t: DeviceType, i: DeviceIndex)
    requires ParseDeviceChecked(s) == Ok((t, i))
    ensures DeviceStr(t, i) == s && IsValidDeviceType(t)
  {
    CheckedAccepts(s);
    PrintedFromParts(s, t, i);
  }

  /** A well-formed string made of a type's name and, if any, the digits of
      the index is what `str()` prints for them. */
  lemma PrintedFromParts(s: string, t: DeviceType, i: DeviceIndex)
    requires WellFormed(s) && NamePart(s) == DeviceTypeName(t, true)
    requires IndexPart(s) == [] ==> i == -1
    requires IndexPart(s) != [] ==> Canonical(IndexPart(s)) && i == DecimalValue(IndexPart(s))
    ensures DeviceStr(t, i) == s
  {
    JoinParts(s);
    var name, digits := NamePart(s), IndexPart(s);
    if digits != [] {
      CanonicalRoundTrip(digits);
      assert IntToString(i) == digits;
    }
  }

  /** What the corrected parser accepts: a well-formed string whose name is
      the type's and whose digits, if any, are the index itself. */
  lemma CheckedAccepts(s: string)
    requires ParseDeviceChecked(s).Ok?
    ensures var (t, i) := ParseDeviceChecked(s).value;
      WellFormed(s) && IsValidDeviceType(t) && NamePart(s) == DeviceTypeName(t, true)
      && (IndexPart(s) == [] ==> i == -1)
      && (IndexPart(s) != [] ==> Canonical(IndexPart(s)) && i == DecimalValue(IndexPart(s)))
  {
    ParseAccepts(s);
  }

  /** A well-formed string is its name, then ':' and its digits if it has any. */
  lemma JoinParts(s: string)
    requires WellFormed(s)
    ensures IndexPart(s) == [] ==> s == NamePart(s)
    ensures IndexPart(s) != [] ==> s == NamePart(s) + (":" + IndexPart(s))
  {
    var k := ColonAt(s);
    if k < |s| {
      assert s == s[..k] + (":" + s[k + 1..]);
    }
  }

  /** Both parsers agree on every printed form of a valid device. */
  lemma CheckedAgreesOnPrinted(t: DeviceType, i: DeviceIndex)
    requires IsValidDeviceType(t) && ValidationError(t, i).None?
    ensures ParseDeviceChecked(DeviceStr(t, i)) == ParseDevice(DeviceStr(t, i)) == Ok((t, i))
  {
    PrintedParts(t, i);
    ParseParts(DeviceStr(t, i), t, i);
  }
}
