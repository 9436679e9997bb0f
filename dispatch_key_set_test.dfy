/** The assertions of test/c10/dispatch_keyset_test.cpp as lemmas about the model. */
module DispatchKeySetTests {
  import opened Wrappers
  import opened Words
  import opened DispatchKeys
  import opened DispatchKeySetTable
  import opened DispatchKeySets

  /** test1's `{Dense, AutogradFunctionality}`. */
  function Test1Keys(): DispatchKeySet {
    UnionOfKeys([Dense, AutogradFunctionality])
  }

  /** test1's `{Dense, BackendSelect}`, the `has_any` query. */
  function Test1Query(): DispatchKeySet {
    UnionOfKeys([Dense, BackendSelect])
  }

  /** test1's `ks4`: `{Dense, AutogradFunctionality} | DispatchKeySet(CUDABit)`. */
  function Test1Set(): DispatchKeySet {
    Union(Test1Keys(), FromBackend(CUDABit))
  }

  lemma Test1Members()
    ensures forall i: nat :: Bit(Test1Set().repr, i) <==> i == 1 || i == 3 || i == 6
  {
    UnionOfTwoKeys(Dense, AutogradFunctionality);
  }

  lemma Test1Queries()
    ensures Has(Test1Set(), Dense) == Ok(true)
    ensures !HasBackend(Test1Set(), CPUBit)
    ensures HasBackend(Test1Set(), CUDABit)
    ensures !IsEmpty(Test1Set())
  {
    Test1Members();
    assert Bit(Test1Set().repr, 3);
  }

  lemma Test1HasAll()
    ensures HasAll(Test1Set(), Test1Keys())
  {
    Test1Members();
    UnionOfTwoKeys(Dense, AutogradFunctionality);
    HasAllIsSubset(Test1Set(), Test1Keys());
  }

  lemma Test1QueryMembers()
    ensures forall i: nat :: Bit(Test1Query().repr, i) <==> i == 3 || i == 4
  {
    UnionOfTwoKeys(Dense, BackendSelect);
  }

  lemma Test1HasAny()
    ensures HasAny(Test1Set(), Test1Query()) == Ok(true)
  {
    Test1Members();
    Test1QueryMembers();
    HasAnyShared(Test1Set(), Test1Query(), 3);
  }

  /** A query without backend bits shares bit `w` with the set. */
  lemma HasAnyShared(s: DispatchKeySet, ks: DispatchKeySet, w: nat)
    requires forall i: nat :: i < NumBackends ==> !Bit(ks.repr, i)
    requires Bit(s.repr, w) && Bit(ks.repr, w)
    ensures HasAny(s, ks) == Ok(true)
  {
  }

  /** test1: membership, backend, subset and overlap queries on `ks4`. */
  lemma KeySetTest1()
    ensures Has(Test1Set(), Dense) == Ok(true)
    ensures !HasBackend(Test1Set(), CPUBit)
    ensures HasBackend(Test1Set(), CUDABit)
    ensures HasAll(Test1Set(), Test1Keys())
    ensures HasAny(Test1Set(), Test1Query()) == Ok(true)
    ensures !IsEmpty(Test1Set())
  {
    Test1Queries();
    Test1HasAll();
    Test1HasAny();
  }

  /** test1's first two checks: `keys_to_repr({AutogradFunctionality})` is the
      repr of `DispatchKeySet({AutogradFunctionality})`, and
      `backend_bits_to_repr({CUDABit})` that of `DispatchKeySet(CUDABit)`. */
  method Test1Reprs() returns (ks2: Word, ks3: Word)
    ensures ks2 == UnionOfKeys([AutogradFunctionality]).repr == FromKey(AutogradFunctionality).repr
    ensures ks3 == FromBackend(CUDABit).repr
  {
    ks2 := KeysToRepr([AutogradFunctionality]);
    ks3 := BackendBitsToRepr([CUDABit]);
    SingleKeyList(AutogradFunctionality);
    SingleBackendList(CUDABit);
  }

  /** A one-key list builds the key's own set. */
  lemma SingleKeyList(k: DispatchKey)
    requires IsEncodableKey(k)
    ensures UnionOfKeys([k]) == FromKey(k)
  {
    var ks := [k];
    assert ks[0] == k;
    Extensionality(UnionOfKeys(ks), FromKey(k));
  }

  /** A one-backend list builds the backend's own set. */
  lemma SingleBackendList(b: BackendComponent)
    requires b <= 64
    ensures UnionOfBackends([b]) == FromBackend(b)
  {
    var bs := [b];
    assert bs[0] == b;
    Extensionality(UnionOfBackends(bs), FromBackend(b));
  }

  /** test2's `ks1`: `{Dense, AutogradCPU}.add(BackendSelect) | {CUDABit, CPUBit}`. */
  function Test2Set(): DispatchKeySet {
    Union(Add(Test2Keys(), BackendSelect), Test2Backends())
  }

  /** test2's `{Dense, AutogradCPU}`. */
  function Test2Keys(): DispatchKeySet {
    UnionOfKeys([Dense, AutogradCPU])
  }

  /** test2's `{CUDABit, CPUBit}`. */
  function Test2Backends(): DispatchKeySet {
    UnionOfBackends([CUDABit, CPUBit])
  }

  lemma Test2Members()
    ensures forall i: nat :: Bit(Test2Set().repr, i) <==> i == 0 || i == 1 || i == 3 || i == 4 || i == 6
  {
    Test2AddMembers();
    Test2BackendMembers();
  }

  lemma Test2AddMembers()
    ensures forall i: nat :: Bit(Add(Test2Keys(), BackendSelect).repr, i) <==>
      i == 0 || i == 3 || i == 4 || i == 6
  {
    Test2KeyMembers();
    assert FunctionalityBit(BackendSelect) == 4;
  }

  lemma Test2KeyMembers()
    ensures forall i: nat :: Bit(Test2Keys().repr, i) <==> i == 0 || i == 3 || i == 6
  {
    UnionOfTwoKeys(Dense, AutogradCPU);
    assert ToFunctionalityKey(AutogradCPU) == AutogradFunctionality && ToBackendComponent(AutogradCPU) == CPUBit;
  }

  lemma Test2BackendMembers()
    ensures forall i: nat :: Bit(Test2Backends().repr, i) <==> i == 0 || i == 1
  {
    UnionOfTwoBackends(CUDABit, CPUBit);
  }

  lemma Test2HighestBit()
    ensures IndexOfHighestBit(Test2Set()) == AutogradFunctionality as nat + NumBackends
  {
    Test2Members();
    HighestBitAt(Test2Set(), 6);
  }

  lemma Test2HighestBackend()
    ensures HighestBackendKey(Test2Set()) == CUDABit
  {
    Test2Members();
    HighestBackendAt(Test2Set(), CUDABit);
  }

  /** test2: the highest bit, highest functionality and highest backend of `ks1`. */
  lemma KeySetTest2()
    ensures IndexOfHighestBit(Test2Set()) == AutogradFunctionality as nat + NumBackends
    ensures HighestFunctionalityKey(Test2Set()) == AutogradFunctionality
    ensures HighestBackendKey(Test2Set()) == CUDABit
  {
    Test2HighestBit();
    Test2HighestBackend();
  }

  lemma DenseCpuSet()
    ensures Union(FromKey(Dense), FromBackend(CPUBit)) == FromKey(DenseCPU)
  {
    Extensionality(Union(FromKey(Dense), FromBackend(CPUBit)), FromKey(DenseCPU));
  }

  lemma DenseCpuSlot()
    ensures GetDispatchTableIndexForDispatchKeySet(FromKey(DenseCPU)) == Ok(1)
  {
    TableIndexOfDenseKey(DenseCPU);
  }

  /** test3: `Dense | CPUBit` sits in slot 1 of the runtime table, DenseCPU's slot. */
  lemma KeySetTest3()
    ensures GetDispatchTableIndexForDispatchKeySet(Union(FromKey(Dense), FromBackend(CPUBit))) == Ok(1)
  {
    DenseCpuSet();
    DenseCpuSlot();
  }
}
