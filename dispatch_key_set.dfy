/** c10/core/DispatchKeySet.h: a set of dispatch keys packed in one 64-bit word.
    Backend component `b` is bit `b - 1`; functionality key `k` is bit
    `num_backends + k - 1`; a runtime per-backend key sets both its
    functionality bit and its backend bit. */
module DispatchKeySets {
  import opened Wrappers
  import opened BitsUtil
  import opened Words
  import opened Decimals
  import opened DispatchKeys
  import opened DispatchKeySetTable

  /** Width of `repr_`, a `uint64_t`. */
  const W: nat := 64

  type Word = x: nat | x < Pow2(W)

  /** The class's only field, `repr_`. */
  datatype DispatchKeySet = DispatchKeySet(repr: Word)

  /** Bit position of functionality key `k`. */
  function FunctionalityBit(k: DispatchKey): nat
    requires Undefined < k <= EndOfFunctionlityKeys
  {
    NumBackends + k as nat - 1
  }

  /** Bit position of backend component `b`. */
  function BackendBit(b: BackendComponent): nat
    requires b != InvalidBit
  {
    b as nat - 1
  }

  lemma SmallFits(k: nat)
    requires k < W
    ensures Pow2(k) < Pow2(W)
  {
    Pow2Monotone(k + 1, W);
  }

  /** The default constructor. */
  function EmptySet(): (r: DispatchKeySet)
    ensures forall i: nat :: !Bit(r.repr, i)
  {
    ZeroMembers(0, W);
    DispatchKeySet(0)
  }

  /** The mask of all backend bits, `full_backend_mask`. */
  function BackendMask(): (r: DispatchKeySet)
    ensures forall i: nat :: Bit(r.repr, i) <==> i < NumBackends
  {
    SmallFits(NumBackends);
    LowMaskMembers(NumBackends);
    DispatchKeySet(Ones(NumBackends))
  }

  /** `DispatchKeySet(FULL)`. */
  function Full(): (r: DispatchKeySet)
    ensures forall i: nat :: Bit(r.repr, i) <==> i < NumBackends + NumFunctionalityKeys - 1
  {
    var n := NumBackends + NumFunctionalityKeys - 1;
    SmallFits(n);
    LowMaskMembers(n);
    DispatchKeySet(Ones(n))
  }

  /** `DispatchKeySet(FULL_AFTER, t)`. */
  function FullAfter(t: DispatchKey): (r: DispatchKeySet)
    ensures forall i: nat :: Bit(r.repr, i) <==> i < NumBackends + ToFunctionalityKey(t) as nat - 1
  {
    var n := NumBackends + ToFunctionalityKey(t) as nat - 1;
    SmallFits(n);
    LowMaskMembers(n);
    DispatchKeySet(Ones(n))
  }

  /** `DispatchKeySet(BackendComponent)`. A component above 64 would shift
      past the word, which the source leaves undefined. */
  function FromBackend(k: BackendComponent): (r: DispatchKeySet)
    requires k <= 64
    ensures k == InvalidBit ==> forall i: nat :: !Bit(r.repr, i)
    ensures k != InvalidBit ==> forall i: nat :: Bit(r.repr, i) <==> i == BackendBit(k)
  {
    if k == InvalidBit then EmptySet() else SingleBitSet(BackendBit(k))
  }

  /** The set of exactly bit `n`. */
  function SingleBitSet(n: nat): (r: DispatchKeySet)
    requires n < W
    ensures forall i: nat :: Bit(r.repr, i) <==> i == n
  {
    var x := Pow2(n);
    SmallFits(n);
    SingleMembers(n);
    DispatchKeySet(x)
  }

  /** The keys whose single-key constructor is defined: the `StartOf*` markers
      have no backend and would shift by -1. */
  predicate IsEncodableKey(k: DispatchKey) {
    k != StartOfDenseBackends && k != StartOfAutogradFunctionalityBackends
  }

  /** The single bit of functionality key `k`. */
  function FunctionalitySet(k: DispatchKey): (r: DispatchKeySet)
    requires Undefined < k <= EndOfFunctionlityKeys
    ensures forall i: nat :: Bit(r.repr, i) <==> i == FunctionalityBit(k)
  {
    SingleBitSet(FunctionalityBit(k))
  }

  /** The two bits of runtime key `k`: its functionality's plus its backend's. */
  function RuntimeKeySet(k: DispatchKey): (r: DispatchKeySet)
    requires IsRuntimeBackendKey(k)
    ensures forall i: nat :: Bit(r.repr, i) <==>
              i == FunctionalityBit(ToFunctionalityKey(k)) || i == BackendBit(ToBackendComponent(k))
  {
    RuntimeKeyJoins(k);
    var f := FunctionalityBit(ToFunctionalityKey(k));
    var b := BackendBit(ToBackendComponent(k));
    var x := Pow2(f) + Pow2(b);
    TwoBitsMembers(x, f, b, W);
    DispatchKeySet(x)
  }

  /** `DispatchKeySet(DispatchKey)`: a functionality key sets its bit, a runtime
      key its functionality bit plus its backend bit, anything else nothing. */
  function FromKey(k: DispatchKey): (r: DispatchKeySet)
    requires IsEncodableKey(k)
    ensures k == Undefined || k > EndOfRuntimeBackendKeys ==> forall i: nat :: !Bit(r.repr, i)
    ensures Undefined < k <= EndOfFunctionlityKeys ==>
              forall i: nat :: Bit(r.repr, i) <==> i == FunctionalityBit(k)
    ensures IsRuntimeBackendKey(k) ==>
              forall i: nat :: Bit(r.repr, i) <==>
                i == FunctionalityBit(ToFunctionalityKey(k)) || i == BackendBit(ToBackendComponent(k))
  {
    if k == Undefined then EmptySet()
    else if k <= EndOfFunctionlityKeys then FunctionalitySet(k)
    else if k <= EndOfRuntimeBackendKeys then RuntimeKeySet(k)
    else EmptySet()
  }

  /** A runtime key's set is its functionality's set joined with its backend's set. */
  lemma RuntimeKeyBits(k: DispatchKey)
    requires IsRuntimeBackendKey(k)
    ensures forall i: nat :: Bit(FromKey(k).repr, i) <==>
              Bit(FromKey(ToFunctionalityKey(k)).repr, i) || Bit(FromBackend(ToBackendComponent(k)).repr, i)
  {
  }

  /** `a | b`. */
  function Union(a: DispatchKeySet, b: DispatchKeySet): (r: DispatchKeySet)
    ensures forall i: nat :: Bit(r.repr, i) <==> Bit(a.repr, i) || Bit(b.repr, i)
  {
    var x := Or(a.repr, b.repr);
    OrBound(a.repr, b.repr, W);
    OrMembers(a.repr, b.repr);
    DispatchKeySet(x)
  }

  /** `a & b`. */
  function Intersect(a: DispatchKeySet, b: DispatchKeySet): (r: DispatchKeySet)
    ensures forall i: nat :: Bit(r.repr, i) <==> Bit(a.repr, i) && Bit(b.repr, i)
  {
    var x := And(a.repr, b.repr);
    AndBound(a.repr, b.repr, W);
    AndMembers(a.repr, b.repr);
    DispatchKeySet(x)
  }

  /** `a ^ b`. */
  function SymmetricDifference(a: DispatchKeySet, b: DispatchKeySet): (r: DispatchKeySet)
    ensures forall i: nat :: Bit(r.repr, i) <==> Bit(a.repr, i) != Bit(b.repr, i)
  {
    var x := Xor(a.repr, b.repr);
    XorBound(a.repr, b.repr, W);
    XorMembers(a.repr, b.repr);
    DispatchKeySet(x)
  }

  /** `~x` on the word. */
  function Invert(a: DispatchKeySet): (r: DispatchKeySet)
    ensures forall i: nat :: Bit(r.repr, i) <==> i < W && !Bit(a.repr, i)
  {
    ComplementMembers(W, a.repr);
    DispatchKeySet(Complement(W, a.repr))
  }

  /** `operator-`: `repr_ & (full_backend_mask | ~other.repr_)`. It removes
      every functionality bit of `b` and never a backend bit. */
  function Minus(a: DispatchKeySet, b: DispatchKeySet): (r: DispatchKeySet)
    ensures forall i: nat :: Bit(r.repr, i) <==> Bit(a.repr, i) && (i < NumBackends || !Bit(b.repr, i))
  {
    NoMembersAbove(a.repr, W);
    Intersect(a, Union(BackendMask(), Invert(b)))
  }

  /** Two sets are equal exactly when they have the same bits. */
  lemma Extensionality(a: DispatchKeySet, b: DispatchKeySet)
    requires forall i: nat :: Bit(a.repr, i) <==> Bit(b.repr, i)
    ensures a == b
  {
    SameMembers(a.repr, b.repr, W);
  }

  /** `has_all(ks)`: `(repr_ & ks.repr_) == ks.repr_`. */
  predicate HasAll(s: DispatchKeySet, ks: DispatchKeySet) {
    And(s.repr, ks.repr) == ks.repr
  }

  /** `isSupersetOf(ks)`: the same test as `has_all`. */
  predicate IsSupersetOf(s: DispatchKeySet, ks: DispatchKeySet) {
    And(s.repr, ks.repr) == ks.repr
  }

  /** `has_all` is the subset relation on bits. */
  lemma HasAllIsSubset(s: DispatchKeySet, ks: DispatchKeySet)
    ensures HasAll(s, ks) <==> forall i: nat :: Bit(ks.repr, i) ==> Bit(s.repr, i)
    ensures IsSupersetOf(s, ks) <==> HasAll(s, ks)
  {
    AndMembers(s.repr, ks.repr);
    if forall i: nat :: Bit(ks.repr, i) ==> Bit(s.repr, i) {
      AndBound(s.repr, ks.repr, W);
      SameMembers(And(s.repr, ks.repr), ks.repr, W);
    }
  }

  /** `has(k)`: refuses `Undefined`, otherwise `has_all(DispatchKeySet(k))`. */
  function Has(s: DispatchKeySet, k: DispatchKey): (r: Result<bool, string>)
    requires IsEncodableKey(k)
    ensures r.Err? <==> k == Undefined
    ensures r.Ok? ==> (r.value <==> forall i: nat :: Bit(FromKey(k).repr, i) ==> Bit(s.repr, i))
  {
    HasAllIsSubset(s, FromKey(k));
    if k == Undefined then Err("Undefined key is not allowed.") else Ok(HasAll(s, FromKey(k)))
  }

  /** `has_backend(k)`. */
  function HasBackend(s: DispatchKeySet, k: BackendComponent): (r: bool)
    requires k <= 64
    ensures k != InvalidBit ==> (r <==> Bit(s.repr, BackendBit(k)))
    ensures k == InvalidBit ==> r
  {
    HasAllIsSubset(s, FromBackend(k));
    HasAll(s, FromBackend(k))
  }

  /** The Dense and AutogradFunctionality bits: functionalities that combine with backend bits. */
  function PerBackendFunctionalities(): (r: DispatchKeySet)
    ensures forall i: nat :: Bit(r.repr, i) <==>
              i == FunctionalityBit(Dense) || i == FunctionalityBit(AutogradFunctionality)
  {
    Union(FromKey(Dense), FromKey(AutogradFunctionality))
  }

  /** A word is non-zero exactly when some bit is set. */
  lemma NonZeroHasBit(x: nat)
    requires x < Pow2(W)
    ensures x != 0 <==> exists i: nat :: Bit(x, i)
  {
    ZeroMembers(x, W);
  }

  /** `has_any(ks)`: a query with both backend bits and per-backend functionality
      bits is refused; otherwise whether the sets share a bit. */
  function HasAny(s: DispatchKeySet, ks: DispatchKeySet): (r: Result<bool, string>)
    ensures r.Err? <==> (exists i: nat :: i < NumBackends && Bit(ks.repr, i))
                        && (Bit(ks.repr, FunctionalityBit(Dense)) || Bit(ks.repr, FunctionalityBit(AutogradFunctionality)))
    ensures r.Ok? ==> (r.value <==> exists i: nat :: Bit(s.repr, i) && Bit(ks.repr, i))
    ensures r.Err? ==> r.error == ""
  {
    var backends := Intersect(ks, BackendMask());
    var perBackend := Intersect(ks, PerBackendFunctionalities());
    var common := Intersect(s, ks);
    BackendBitsQuery(ks);
    PerBackendBitsQuery(ks);
    CommonBitsQuery(s, ks);
    if backends.repr == 0 || perBackend.repr == 0 then Ok(common.repr != 0)
    else Err("")
  }

  /** `ks` masked by the backend bits is non-zero exactly when `ks` has a backend. */
  lemma BackendBitsQuery(ks: DispatchKeySet)
    ensures Intersect(ks, BackendMask()).repr != 0 <==> exists i: nat :: i < NumBackends && Bit(ks.repr, i)
  {
    NonZeroHasBit(Intersect(ks, BackendMask()).repr);
  }

  /** `ks` masked by the per-backend functionalities is non-zero exactly when
      `ks` has `Dense` or `AutogradFunctionality`. */
  lemma PerBackendBitsQuery(ks: DispatchKeySet)
    ensures Intersect(ks, PerBackendFunctionalities()).repr != 0 <==>
      Bit(ks.repr, FunctionalityBit(Dense)) || Bit(ks.repr, FunctionalityBit(AutogradFunctionality))
  {
    var perBackend := Intersect(ks, PerBackendFunctionalities());
    NonZeroHasBit(perBackend.repr);
    if perBackend.repr != 0 {
      var i: nat :| Bit(perBackend.repr, i);
    } else {
      assert !Bit(perBackend.repr, FunctionalityBit(Dense));
      assert !Bit(perBackend.repr, FunctionalityBit(AutogradFunctionality));
    }
  }

  /** Two sets intersect in a non-zero word exactly when they share a bit. */
  lemma CommonBitsQuery(s: DispatchKeySet, ks: DispatchKeySet)
    ensures Intersect(s, ks).repr != 0 <==> exists i: nat :: Bit(s.repr, i) && Bit(ks.repr, i)
  {
    NonZeroHasBit(Intersect(s, ks).repr);
  }

  /** `add(k)`. */
  function Add(s: DispatchKeySet, k: DispatchKey): (r: DispatchKeySet)
    requires IsEncodableKey(k)
    ensures forall i: nat :: Bit(r.repr, i) <==> Bit(s.repr, i) || Bit(FromKey(k).repr, i)
  {
    Union(s, FromKey(k))
  }

  /** `remove(k)`: `repr_ & ~(DispatchKeySet(k).repr_ & ~full_backend_mask)`;
      it clears `k`'s functionality bit and keeps every backend bit. */
  function Remove(s: DispatchKeySet, k: DispatchKey): (r: DispatchKeySet)
    requires IsEncodableKey(k)
    ensures forall i: nat :: Bit(r.repr, i) <==> Bit(s.repr, i) && (i < NumBackends || !Bit(FromKey(k).repr, i))
  {
    NoMembersAbove(s.repr, W);
    Intersect(s, Invert(Intersect(FromKey(k), Invert(BackendMask()))))
  }

  /** `remove(k)` is `*this - DispatchKeySet(k)`. */
  lemma RemoveIsMinus(s: DispatchKeySet, k: DispatchKey)
    requires IsEncodableKey(k)
    ensures Remove(s, k) == Minus(s, FromKey(k))
  {
    Extensionality(Remove(s, k), Minus(s, FromKey(k)));
  }

  /** `remove_backend(b)`: clears exactly `b`'s bit. */
  function RemoveBackend(s: DispatchKeySet, b: BackendComponent): (r: DispatchKeySet)
    requires b <= 64
    ensures forall i: nat :: Bit(r.repr, i) <==> Bit(s.repr, i) && (b == InvalidBit || i != BackendBit(b))
  {
    NoMembersAbove(s.repr, W);
    Intersect(s, Invert(FromBackend(b)))
  }

  /** `empty()`. */
  function IsEmpty(s: DispatchKeySet): (r: bool)
    ensures r <==> forall i: nat :: !Bit(s.repr, i)
  {
    ZeroMembers(s.repr, W);
    s.repr == 0
  }

  /** `DispatchKeySet(FULL_AFTER, t)` for a real functionality `t`: every bit
      below `t`'s own bit, so every backend bit and every lower-priority functionality. */
  lemma FullAfterBelowKey(t: DispatchKey)
    requires Undefined < ToFunctionalityKey(t)
    ensures forall b: BackendComponent :: IsBackend(b) ==> Bit(FullAfter(t).repr, BackendBit(b))
    ensures forall k: DispatchKey :: Undefined < k <= EndOfFunctionlityKeys ==>
              (Bit(FullAfter(t).repr, FunctionalityBit(k)) <==> k < ToFunctionalityKey(t))
  {
  }

  /** `A | B` contains both `A` and `B`. */
  lemma UnionHasAll(a: DispatchKeySet, b: DispatchKeySet)
    ensures HasAll(Union(a, b), a) && HasAll(Union(a, b), b)
  {
    HasAllIsSubset(Union(a, b), a);
    HasAllIsSubset(Union(a, b), b);
  }

  /** `A & A == A` and `A | A == A`. */
  lemma Idempotent(a: DispatchKeySet)
    ensures Intersect(a, a) == a && Union(a, a) == a
  {
    Extensionality(Intersect(a, a), a);
    Extensionality(Union(a, a), a);
  }

  /** `A - B` followed by adding `B` back gives `A | B`. */
  lemma MinusThenUnion(a: DispatchKeySet, b: DispatchKeySet)
    ensures Union(Minus(a, b), b) == Union(a, b)
  {
    Extensionality(Union(Minus(a, b), b), Union(a, b));
  }

  /** The keys of a list, joined one by one: what `keys_to_repr` computes and
      `DispatchKeySet(std::initializer_list<DispatchKey>)` stores. */
  function UnionOfKeys(ks: seq<DispatchKey>): (r: DispatchKeySet)
    requires forall j :: 0 <= j < |ks| ==> IsEncodableKey(ks[j])
    ensures forall i: nat :: Bit(r.repr, i) <==> exists j :: 0 <= j < |ks| && Bit(FromKey(ks[j]).repr, i)
  {
    if |ks| == 0 then EmptySet()
    else
      var r := Union(UnionOfKeys(ks[..|ks| - 1]), FromKey(ks[|ks| - 1]));
      assert forall i: nat :: Bit(r.repr, i) ==> exists j :: 0 <= j < |ks| && Bit(FromKey(ks[j]).repr, i) by {
        forall i: nat | Bit(r.repr, i) ensures exists j :: 0 <= j < |ks| && Bit(FromKey(ks[j]).repr, i) {
          if !Bit(FromKey(ks[|ks| - 1]).repr, i) {
            var j :| 0 <= j < |ks| - 1 && Bit(FromKey(ks[..|ks| - 1][j]).repr, i);
            DropLastAt(ks, j);
          }
        }
      }
      assert forall j, i: nat :: 0 <= j < |ks| - 1 && Bit(FromKey(ks[j]).repr, i) ==> Bit(r.repr, i) by {
        forall j, i: nat | 0 <= j < |ks| - 1 && Bit(FromKey(ks[j]).repr, i) ensures Bit(r.repr, i) {
          DropLastAt(ks, j);
        }
      }
      r
  }

  /** Dropping the last element keeps the others in place. */
  lemma DropLastAt<T>(s: seq<T>, j: nat)
    requires j + 1 < |s|
    ensures s[..|s| - 1][j] == s[j]
  {
  }

  /** The backend components of a list, joined one by one: what
      `backend_bits_to_repr` computes. */
  function UnionOfBackends(bs: seq<BackendComponent>): (r: DispatchKeySet)
    requires forall j :: 0 <= j < |bs| ==> bs[j] <= 64
    ensures forall i: nat :: Bit(r.repr, i) <==> exists j :: 0 <= j < |bs| && Bit(FromBackend(bs[j]).repr, i)
  {
    if |bs| == 0 then EmptySet()
    else
      var r := Union(UnionOfBackends(bs[..|bs| - 1]), FromBackend(bs[|bs| - 1]));
      assert forall i: nat :: Bit(r.repr, i) ==> exists j :: 0 <= j < |bs| && Bit(FromBackend(bs[j]).repr, i) by {
        forall i: nat | Bit(r.repr, i) ensures exists j :: 0 <= j < |bs| && Bit(FromBackend(bs[j]).repr, i) {
          if !Bit(FromBackend(bs[|bs| - 1]).repr, i) {
            var j :| 0 <= j < |bs| - 1 && Bit(FromBackend(bs[..|bs| - 1][j]).repr, i);
            DropLastAt(bs, j);
          }
        }
      }
      assert forall j, i: nat :: 0 <= j < |bs| - 1 && Bit(FromBackend(bs[j]).repr, i) ==> Bit(r.repr, i) by {
        forall j, i: nat | 0 <= j < |bs| - 1 && Bit(FromBackend(bs[j]).repr, i) ensures Bit(r.repr, i) {
          DropLastAt(bs, j);
        }
      }
      r
  }

  /** `keys_to_repr(ks)`: ORs the single-key words together in a loop. */
  method KeysToRepr(ks: seq<DispatchKey>) returns (repr: Word)
    requires forall j :: 0 <= j < |ks| ==> IsEncodableKey(ks[j])
    ensures repr == UnionOfKeys(ks).repr
  {
    repr := 0;
    var i := 0;
    while i < |ks|
      invariant 0 <= i <= |ks|
      invariant repr == UnionOfKeys(ks[..i]).repr
    {
      assert ks[..i + 1][..i] == ks[..i];
      OrBound(repr, FromKey(ks[i]).repr, W);
      repr := Or(repr, FromKey(ks[i]).repr);
      i := i + 1;
    }
    assert ks[..|ks|] == ks;
  }

  /** `backend_bits_to_repr(ks)`: ORs the single-backend words together in a loop. */
  method BackendBitsToRepr(bs: seq<BackendComponent>) returns (repr: Word)
    requires forall j :: 0 <= j < |bs| ==> bs[j] <= 64
    ensures repr == UnionOfBackends(bs).repr
  {
    repr := 0;
    var i := 0;
    while i < |bs|
      invariant 0 <= i <= |bs|
      invariant repr == UnionOfBackends(bs[..i]).repr
    {
      assert bs[..i + 1][..i] == bs[..i];
      OrBound(repr, FromBackend(bs[i]).repr, W);
      repr := Or(repr, FromBackend(bs[i]).repr);
      i := i + 1;
    }
    assert bs[..|bs|] == bs;
  }

  /** `indexOfHighestBit()`: `64 - countLeadingZeros(repr_)`, the 1-based position
      of the highest bit, 0 for the empty set. */
  function IndexOfHighestBit(s: DispatchKeySet): (r: nat)
    ensures r <= W
    ensures r == 0 <==> forall i: nat :: !Bit(s.repr, i)
    ensures r > 0 ==> Bit(s.repr, r - 1)
    ensures forall i: nat :: i >= r ==> !Bit(s.repr, i)
  {
    BitLengthMembers(s.repr, W);
    ZeroMembers(s.repr, W);
    BitLength(s.repr)
  }

  /** `highestFunctionalityKey()`: the key whose functionality bit is the highest
      bit of the set, `Undefined` when only backend bits are set. */
  function HighestFunctionalityKey(s: DispatchKeySet): (r: DispatchKey)
    ensures r == Undefined <==> forall i: nat :: i >= NumBackends ==> !Bit(s.repr, i)
    ensures r != Undefined ==> Bit(s.repr, NumBackends + r as nat - 1)
    ensures forall i: nat :: i >= NumBackends + r as nat ==> !Bit(s.repr, i)
  {
    var idx := IndexOfHighestBit(s);
    if idx < NumBackends then Undefined else (idx - NumBackends) as DispatchKey
  }

  /** `highestBackendKey()`: the highest backend bit of the set, `InvalidBit` when there is none. */
  function HighestBackendKey(s: DispatchKeySet): (r: BackendComponent)
    ensures r == InvalidBit <==> forall i: nat :: i < NumBackends ==> !Bit(s.repr, i)
    ensures r != InvalidBit ==> IsBackend(r) && Bit(s.repr, BackendBit(r))
    ensures r != InvalidBit ==> forall i: nat :: BackendBit(r) < i < NumBackends ==> !Bit(s.repr, i)
  {
    var idx := IndexOfHighestBit(Intersect(s, BackendMask()));
    if idx == 0 then InvalidBit else idx as BackendComponent
  }

  /** `getBackendIndex()`: the 0-based position of the highest backend bit, 0 when there is none. */
  function GetBackendIndex(s: DispatchKeySet): (r: nat)
    ensures r == (if HighestBackendKey(s) == InvalidBit then 0 else HighestBackendKey(s) as nat - 1)
  {
    BitLength(Intersect(s, BackendMask()).repr / 2)
  }

  /** The backend position under entry `f`'s mask: `getBackendIndex()` for a
      per-backend functionality, 0 otherwise. */
  lemma MaskedBackendIndex(s: DispatchKeySet, f: nat)
    requires f < NumFunctionalityKeys
    ensures BitLength(And(s.repr, Entry(f).mask) / 2) ==
            (if IsPerBackendFunctionalityKey(f as DispatchKey) then GetBackendIndex(s) else 0)
  {
    MaskOfEntry(f);
    if IsPerBackendFunctionalityKey(f as DispatchKey) {
      assert Entry(f).mask == BackendMask().repr;
    } else {
      assert And(s.repr, 0) == 0;
    }
  }

  /** `getDispatchTableIndexForDispatchKeySet()`: the functionality's offset, plus
      the backend position when the functionality has a backend mask. It fails
      when the highest functionality is not below `num_functionality_keys`. */
  function GetDispatchTableIndexForDispatchKeySet(s: DispatchKeySet): (r: Result<nat, string>)
    ensures r.Err? <==> HighestFunctionalityKey(s) as nat >= NumFunctionalityKeys
    ensures r.Ok? ==>
              var f := HighestFunctionalityKey(s) as nat;
              r.value == Entry(f).offset + (if IsPerBackendFunctionalityKey(f as DispatchKey) then GetBackendIndex(s) else 0)
  {
    var f := HighestFunctionalityKey(s) as nat;
    if f >= NumFunctionalityKeys then Err("functionality_idx must be non-negative")
    else Ok(SlotUnderEntry(s, f))
  }

  /** The slot for functionality `f`: entry `f` of `offsetsAndMasks()` (which
      is `Table()[f]`) gives the offset, and the set masked by the entry's
      mask and shifted right by one gives the backend position. */
  function SlotUnderEntry(s: DispatchKeySet, f: nat): (r: nat)
    requires f < NumFunctionalityKeys
    ensures r == Entry(f).offset + (if IsPerBackendFunctionalityKey(f as DispatchKey) then GetBackendIndex(s) else 0)
  {
    var entry := Entry(f);
    MaskedBackendIndex(s, f);
    entry.offset + BitLength(And(s.repr, entry.mask) / 2)
  }

  /** A functionality key's set has that key as highest functionality and no backend. */
  lemma HighestOfFunctionalityKey(k: DispatchKey)
    requires Undefined < k <= EndOfFunctionlityKeys
    ensures HighestFunctionalityKey(FromKey(k)) == k
    ensures HighestBackendKey(FromKey(k)) == InvalidBit
  {
    var r := HighestFunctionalityKey(FromKey(k));
    assert Bit(FromKey(k).repr, FunctionalityBit(k));
    assert Bit(FromKey(k).repr, NumBackends + r as nat - 1);
  }

  /** A runtime key's set has its functionality as highest functionality and its
      backend as highest backend. */
  lemma HighestOfRuntimeKey(k: DispatchKey)
    requires IsRuntimeBackendKey(k)
    ensures HighestFunctionalityKey(FromKey(k)) == ToFunctionalityKey(k)
    ensures HighestBackendKey(FromKey(k)) == ToBackendComponent(k)
  {
    RuntimeKeyJoins(k);
    HighestOfTwoBits(FromKey(k), ToFunctionalityKey(k), ToBackendComponent(k));
  }

  /** A set of exactly functionality `f`'s bit and backend `b`'s bit has `f`
      and `b` as highest keys. */
  lemma HighestOfTwoBits(s: DispatchKeySet, fk: DispatchKey, bk: BackendComponent)
    requires Undefined < fk <= EndOfFunctionlityKeys && IsBackend(bk)
    requires forall i: nat :: Bit(s.repr, i) <==> i == FunctionalityBit(fk) || i == BackendBit(bk)
    ensures HighestFunctionalityKey(s) == fk && HighestBackendKey(s) == bk
  {
    var f := HighestFunctionalityKey(s);
    assert Bit(s.repr, FunctionalityBit(fk));
    assert Bit(s.repr, NumBackends + f as nat - 1);
    var b := HighestBackendKey(s);
    assert Bit(s.repr, BackendBit(bk));
    assert b != InvalidBit;
    assert Bit(s.repr, BackendBit(b));
  }

  /** The table index of a functionality key without backends is its offset. */
  lemma TableIndexOfFunctionalityKey(k: DispatchKey)
    requires k as nat < NumFunctionalityKeys && !IsPerBackendFunctionalityKey(k)
    ensures GetDispatchTableIndexForDispatchKeySet(FromKey(k)) == Ok(Entry(k as nat).offset)
  {
    if k == Undefined {
      assert HighestFunctionalityKey(FromKey(k)) == Undefined;
    } else {
      HighestOfFunctionalityKey(k);
    }
  }

  /** The table index of a runtime key is its functionality's offset plus its
      backend's 0-based position. */
  lemma TableIndexOfRuntimeKey(k: DispatchKey)
    requires IsRuntimeBackendKey(k)
    ensures GetDispatchTableIndexForDispatchKeySet(FromKey(k)) ==
            Ok((if ToFunctionalityKey(k) == Dense then 1 else 6) + BackendBit(ToBackendComponent(k)))
  {
    var s, f, b := FromKey(k), ToFunctionalityKey(k), ToBackendComponent(k);
    RuntimeKeyJoins(k);
    HighestOfRuntimeKey(k);
    TableIndexOfPerBackendSet(s, f, b);
  }

  /** The table index of a set whose highest functionality `f` has a backend
      mask and whose highest backend is `b`. */
  lemma TableIndexOfPerBackendSet(s: DispatchKeySet, f: DispatchKey, b: BackendComponent)
    requires IsPerBackendFunctionalityKey(f) && IsBackend(b)
    requires HighestFunctionalityKey(s) == f && HighestBackendKey(s) == b
    ensures GetDispatchTableIndexForDispatchKeySet(s) == Ok((if f == Dense then 1 else 6) + BackendBit(b))
  {
    BackendIndexOfHighest(s, b);
    TableValues();
    if f == Dense {
      assert Entry(f as nat).offset == 1;
    } else {
      assert Entry(f as nat).offset == 6;
    }
  }

  /** `getBackendIndex()` is the 0-based position of the highest backend. */
  lemma BackendIndexOfHighest(s: DispatchKeySet, b: BackendComponent)
    requires IsBackend(b) && HighestBackendKey(s) == b
    ensures GetBackendIndex(s) == BackendBit(b)
  {
  }

  /** The runtime dispatch table in slot order: one slot per non-per-backend
      functionality and one per (per-backend functionality, backend) pair. */
  const RuntimeEntries: seq<DispatchKey> :=
    [Undefined, DenseCPU, DenseCUDA, DenseMeta, BackendSelect, ADInplaceOrView,
     AutogradCPU, AutogradCUDA, AutogradMeta, AutocastCPU, AutocastCUDA]

  /** Every runtime entry's single-key set lands on its own slot, so distinct
      runtime keys get distinct indices, all below `num_runtime_entries` = 11. */
  lemma TableIndexOfRuntimeEntries(j: nat)
    requires j < |RuntimeEntries|
    ensures GetDispatchTableIndexForDispatchKeySet(FromKey(RuntimeEntries[j])) == Ok(j)
  {
    var k := RuntimeEntries[j];
    if j in {0, 4, 5, 9, 10} {
      TableIndexOfFunctionalityEntry(j, k);
    } else {
      TableIndexOfRuntimeEntry(j, k);
    }
  }

  /** The slots of the functionality keys without backends. */
  lemma TableIndexOfFunctionalityEntry(j: nat, k: DispatchKey)
    requires j in {0, 4, 5, 9, 10} && j < |RuntimeEntries| && k == RuntimeEntries[j]
    ensures GetDispatchTableIndexForDispatchKeySet(FromKey(k)) == Ok(j)
  {
    TableValues();
    assert k as nat < NumFunctionalityKeys && !IsPerBackendFunctionalityKey(k);
    TableIndexOfFunctionalityKey(k);
  }

  /** The slots of the runtime backend keys. */
  lemma TableIndexOfRuntimeEntry(j: nat, k: DispatchKey)
    requires j in {1, 2, 3, 6, 7, 8} && j < |RuntimeEntries| && k == RuntimeEntries[j]
    ensures GetDispatchTableIndexForDispatchKeySet(FromKey(k)) == Ok(j)
  {
    if j <= 3 {
      assert k as nat == j + 8;
      TableIndexOfDenseKey(k);
    } else {
      assert k as nat == j + 7;
      TableIndexOfAutogradKey(k);
    }
  }

  /** A dense runtime key sits at `Dense`'s offset 1 plus its backend's position. */
  lemma TableIndexOfDenseKey(k: DispatchKey)
    requires StartOfDenseBackends < k <= EndOfDenseBackends
    ensures GetDispatchTableIndexForDispatchKeySet(FromKey(k)) == Ok(k as nat - 8)
  {
    DenseKeyParts(k);
    TableIndexOfRuntimeKey(k);
    assert (if ToFunctionalityKey(k) == Dense then 1 else 6) + BackendBit(ToBackendComponent(k)) == k as nat - 8;
  }

  /** A dense runtime key's functionality is `Dense` and its backend sits at bit `k - 9`. */
  lemma DenseKeyParts(k: DispatchKey)
    requires StartOfDenseBackends < k <= EndOfDenseBackends
    ensures IsRuntimeBackendKey(k) && ToFunctionalityKey(k) == Dense && BackendBit(ToBackendComponent(k)) == k as nat - 9
  {
  }

  /** An autograd runtime key sits at `AutogradFunctionality`'s offset 6 plus its
      backend's position. */
  lemma TableIndexOfAutogradKey(k: DispatchKey)
    requires StartOfAutogradFunctionalityBackends < k <= EndOfAutogradFunctionalityBackends
    ensures GetDispatchTableIndexForDispatchKeySet(FromKey(k)) == Ok(k as nat - 7)
  {
    AutogradKeyParts(k);
    TableIndexOfRuntimeKey(k);
    assert (if ToFunctionalityKey(k) == Dense then 1 else 6) + BackendBit(ToBackendComponent(k)) == k as nat - 7;
  }

  /** An autograd runtime key's functionality is `AutogradFunctionality` and its
      backend sits at bit `k - 13`. */
  lemma AutogradKeyParts(k: DispatchKey)
    requires StartOfAutogradFunctionalityBackends < k <= EndOfAutogradFunctionalityBackends
    ensures IsRuntimeBackendKey(k) && ToFunctionalityKey(k) == AutogradFunctionality
    ensures BackendBit(ToBackendComponent(k)) == k as nat - 13
  {
  }

  /** A two-key list is the union of the two single-key sets. */
  lemma UnionOfTwoKeys(a: DispatchKey, b: DispatchKey)
    requires IsEncodableKey(a) && IsEncodableKey(b)
    ensures UnionOfKeys([a, b]) == Union(FromKey(a), FromKey(b))
  {
    var ks := [a, b];
    assert ks[0] == a && ks[1] == b;
    Extensionality(UnionOfKeys(ks), Union(FromKey(a), FromKey(b)));
  }

  /** A two-backend list is the union of the two single-backend sets. */
  lemma UnionOfTwoBackends(a: BackendComponent, b: BackendComponent)
    requires a <= 64 && b <= 64
    ensures UnionOfBackends([a, b]) == Union(FromBackend(a), FromBackend(b))
  {
    var bs := [a, b];
    assert bs[0] == a && bs[1] == b;
    Extensionality(UnionOfBackends(bs), Union(FromBackend(a), FromBackend(b)));
  }

  /** The highest bit determines `indexOfHighestBit()`. */
  lemma HighestBitAt(s: DispatchKeySet, p: nat)
    requires Bit(s.repr, p) && forall i: nat :: i > p ==> !Bit(s.repr, i)
    ensures IndexOfHighestBit(s) == p + 1
  {
  }

  /** The highest backend bit determines `highestBackendKey()`. */
  lemma HighestBackendAt(s: DispatchKeySet, b: BackendComponent)
    requires IsBackend(b) && Bit(s.repr, BackendBit(b))
    requires forall i: nat :: BackendBit(b) < i < NumBackends ==> !Bit(s.repr, i)
    ensures HighestBackendKey(s) == b
  {
  }

  /** A `uint8_t` field. */
  type Byte = x: nat | x < 0x100

  /** `DispatchKeySet::iterator`'s counters (the pointer to `repr_` is not modelled). */
  datatype Iterator = Iterator(nextFunctionality: Byte, nextBackend: Byte,
                               currentDispatchKeyIdx: Byte, currentBackendComponentIdx: Byte)

  /** `iterator::end_iter_val` and `iterator::end_iter_key_val`. */
  const EndIterVal: Byte := NumBackends + NumFunctionalityKeys
  const EndIterKeyVal: Byte := NumFunctionalityKeys

  /** `iterator::operator++()`: two bounds checks; the advancing itself is
      still a to-do in the source, so the iterator comes back unchanged. */
  function Increment(it: Iterator): (r: Result<Iterator, string>)
    ensures r.Ok? <==> it.nextFunctionality <= EndIterVal && it.nextBackend <= NumBackends
    ensures r.Ok? ==> r.value == it
    ensures r.Err? ==> r.error == ""
  {
    if it.nextFunctionality > EndIterVal then Err("")
    else if it.nextBackend > NumBackends then Err("")
    else Ok(it)
  }

  /** The iterator constructor: refuses a start below `num_backends`, with a
      message giving both numbers, then steps once. */
  function MakeIterator(nextFunctionality: Byte, nextBackend: Byte): (r: Result<Iterator, string>)
    ensures r.Ok? <==> NumBackends <= nextFunctionality <= EndIterVal && nextBackend <= NumBackends
    ensures r.Ok? ==> r.value == Iterator(nextFunctionality, nextBackend, EndIterVal, EndIterKeyVal)
    ensures nextFunctionality < NumBackends ==>
              r == Err("num_backends=" + NatToString(NumBackends) + " next_functionality_=" + NatToString(nextFunctionality))
    ensures NumBackends <= nextFunctionality && r.Err? ==> r.error == ""
  {
    if nextFunctionality < NumBackends then
      Err("num_backends=" + NatToString(NumBackends) + " next_functionality_=" + NatToString(nextFunctionality))
    else Increment(Iterator(nextFunctionality, nextBackend, EndIterVal, EndIterKeyVal))
  }

  /** `begin()`. */
  function Begin(): Result<Iterator, string> {
    MakeIterator(NumBackends, 0)
  }

  /** `end()`. */
  function End(): Result<Iterator, string> {
    MakeIterator(EndIterVal, 0)
  }

  /** `begin()` and `end()` differ in `next_functionality_`, and `++` leaves
      `begin()` where it is, so a range-for over a key set never reaches `end()`. */
  lemma BeginNeverReachesEnd()
    ensures Begin().Ok? && End().Ok? && Begin() != End()
    ensures Increment(Begin().value) == Begin()
  {
  }

  /** An iterator started at functionality 1 is refused with the numbers
      `num_backends=3 next_functionality_=1`. */
  lemma IteratorBelowBackendsMessage()
    ensures MakeIterator(1, 0) == Err("num_backends=3 next_functionality_=1")
  {
    assert NatToString(NumBackends) == "3" && NatToString(1) == "1";
    assert "num_backends=" + "3" + " next_functionality_=" + "1" == "num_backends=3 next_functionality_=1";
  }

  /** `iterator::operator*()`: a per-backend functionality is combined with the
      current backend, which must survive the round trip; anything else is
      returned as it is. */
  function Deref(it: Iterator): (r: Result<DispatchKey, string>)
    ensures !IsPerBackendFunctionalityKey(it.currentDispatchKeyIdx as DispatchKey) ==>
              r == Ok(it.currentDispatchKeyIdx as DispatchKey)
    ensures IsPerBackendFunctionalityKey(it.currentDispatchKeyIdx as DispatchKey) ==>
              (r.Ok? <==> it.currentBackendComponentIdx <= EndOfBackendKeys as nat)
    ensures r.Ok? && IsPerBackendFunctionalityKey(it.currentDispatchKeyIdx as DispatchKey)
            && IsBackend(it.currentBackendComponentIdx as BackendComponent) ==>
              IsRuntimeBackendKey(r.value)
              && ToFunctionalityKey(r.value) == it.currentDispatchKeyIdx as DispatchKey
              && ToBackendComponent(r.value) == it.currentBackendComponentIdx as BackendComponent
  {
    var functionalityKey := it.currentDispatchKeyIdx as DispatchKey;
    var backend := it.currentBackendComponentIdx as BackendComponent;
    if IsPerBackendFunctionalityKey(functionalityKey) then
      var nextKey := ToRuntimePerBackendFunctionalityKey(functionalityKey, backend);
      if ToBackendComponent(nextKey) == backend then Ok(nextKey) else Err("BackendComponent mismatch")
    else Ok(functionalityKey)
  }
}
