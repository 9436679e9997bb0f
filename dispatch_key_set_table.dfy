/** c10/core/DispatchKeySet.cpp: the table of functionality offsets and
    backend masks behind the dense dispatch-table index. */
module DispatchKeySetTable {
  import opened Wrappers
  import opened DispatchKeys
  import opened Decimals

  /** `FunctionalityOffsetAndMask`: where a functionality's slots start in the
      runtime table, and which backend bits select among them. */
  datatype FunctionalityOffsetAndMask = FunctionalityOffsetAndMask(offset: nat, mask: nat)

  /** Entry `i` as the initialiser computes it: entry 0 is `(0, 0)`; every later
      entry starts after its predecessor's slots (one slot, or one per backend
      when the predecessor has a backend mask), narrowed to the constructor's
      `uint8_t` offset parameter. */
  function Entry(i: nat): (r: FunctionalityOffsetAndMask)
    requires i < NumFunctionalityKeys
    ensures r.mask != 0 <==> IsPerBackendFunctionalityKey(i as DispatchKey)
  {
    Constants();
    if i == 0 then FunctionalityOffsetAndMask(0, 0)
    else
      var prev := Entry(i - 1);
      var offset := (prev.offset + (if prev.mask == 0 then 1 else NumBackends)) % 0x100;
      var mask := if IsPerBackendFunctionalityKey(i as DispatchKey) then FullBackendMask else 0;
      FunctionalityOffsetAndMask(offset, mask)
  }

  /** `offsetsAndMasks()`: the table the initialiser returns. */
  function Table(): (t: seq<FunctionalityOffsetAndMask>)
    ensures |t| == NumFunctionalityKeys
    ensures forall i :: 0 <= i < |t| ==> t[i] == Entry(i)
  {
    seq(NumFunctionalityKeys, i requires 0 <= i < NumFunctionalityKeys => Entry(i))
  }

  /** `initializeFunctionalityOffsetsAndMasks()`: fills the array entry by entry
      from the previous one, then checks the last offset against
      `num_runtime_entries - 1` (a parameter: its definition is not part of this model). */
  method InitializeFunctionalityOffsetsAndMasks(numRuntimeEntries: int)
    returns (r: Result<seq<FunctionalityOffsetAndMask>, string>)
    ensures r.Ok? <==> Entry(NumFunctionalityKeys - 1).offset == numRuntimeEntries - 1
    ensures r.Ok? ==> r.value == Table()
    ensures r.Err? ==> r.error == "num_runtime_entries: " + IntToString(numRuntimeEntries)
                                 + " last offset: " + NatToString(Entry(NumFunctionalityKeys - 1).offset)
  {
    var a := new FunctionalityOffsetAndMask[NumFunctionalityKeys];
    a[0] := FunctionalityOffsetAndMask(0, 0);
    var i := 1;
    while i < NumFunctionalityKeys
      invariant 1 <= i <= NumFunctionalityKeys
      invariant forall j :: 0 <= j < i ==> a[j] == Entry(j)
    {
      var pre := a[i - 1];
      var offset := (pre.offset + (if pre.mask == 0 then 1 else NumBackends)) % 0x100;
      var mask := if IsPerBackendFunctionalityKey(i as DispatchKey) then FullBackendMask else 0;
      a[i] := FunctionalityOffsetAndMask(offset, mask);
      i := i + 1;
    }
    if a[NumFunctionalityKeys - 1].offset == numRuntimeEntries - 1 {
      r := Ok(a[..]);
    } else {
      r := Err("num_runtime_entries: " + IntToString(numRuntimeEntries)
               + " last offset: " + NatToString(a[NumFunctionalityKeys - 1].offset));
    }
  }

  /** The masks: the full backend mask exactly on per-backend functionalities. */
  lemma MaskOfEntry(i: nat)
    requires i < NumFunctionalityKeys
    ensures Entry(i).mask == (if IsPerBackendFunctionalityKey(i as DispatchKey) then FullBackendMask else 0)
  {
  }

  /** Closed form of the offsets: every earlier functionality takes one
      slot, and each earlier per-backend one takes `num_backends - 1` (here 2)
      more. */
  lemma EntryOffsets(i: nat)
    requires i < NumFunctionalityKeys
    ensures Entry(i).offset == i + 2 * PerBackendKeysBelow(i)
  {
    TableValues();
    PerBackendCounts();
  }

  /** How many per-backend functionalities lie below each functionality key. */
  lemma PerBackendCounts()
    ensures PerBackendKeysBelow(0) == 0 && PerBackendKeysBelow(1) == 0 && PerBackendKeysBelow(2) == 1
    ensures PerBackendKeysBelow(3) == 1 && PerBackendKeysBelow(4) == 1 && PerBackendKeysBelow(5) == 2
    ensures PerBackendKeysBelow(6) == 2
  {
  }

  /** The offsets that the table holds with the shown key enum. */
  lemma TableValues()
    ensures Entry(0).offset == 0 && Entry(1).offset == 1 && Entry(2).offset == 4
    ensures Entry(3).offset == 5 && Entry(4).offset == 6 && Entry(5).offset == 9
    ensures Entry(6).offset == 10
    ensures Entry(NumFunctionalityKeys - 1).offset == 10
  {
  }

  /** With 11 runtime entries the check passes; with 5 it fails and reports
      both numbers, "num_runtime_entries: 5 last offset: 10". */
  method InitializeScenario() returns (good: Result<seq<FunctionalityOffsetAndMask>, string>,
                                       bad: Result<seq<FunctionalityOffsetAndMask>, string>)
    ensures good == Ok(Table())
    ensures bad == Err("num_runtime_entries: 5 last offset: 10")
  {
    TableValues();
    good := InitializeFunctionalityOffsetsAndMasks(11);
    bad := InitializeFunctionalityOffsetsAndMasks(5);
    assert IntToString(5) == "5";
    assert NatToString(10) == "10" by {
      assert NatToString(10) == NatToString(1) + [DigitChar(0)];
    }
    assert "num_runtime_entries: " + "5" + " last offset: " + "10" == "num_runtime_entries: 5 last offset: 10";
  }

  /** Offsets strictly increase, so distinct functionalities start at distinct slots. */
  lemma {:induction false} OffsetsIncrease(i: nat, j: nat)
    requires i < j < NumFunctionalityKeys
    ensures Entry(i).offset < Entry(j).offset
  {
    TableValues();
  }

  /** A functionality with a backend mask owns the `NumBackends` slots after its offset,
      and the next functionality starts right after them. */
  lemma SlotsDoNotOverlap(i: nat)
    requires i + 1 < NumFunctionalityKeys
    ensures Entry(i).offset + (if Entry(i).mask == 0 then 1 else NumBackends) == Entry(i + 1).offset
  {
    TableValues();
  }
}
