/** c10/util/intrusive_ptr.h: reference counting kept inside the target object.
    A target carries a strong count and a weak count (both `uint32_t`); every
    strong handle holds one strong count, and all strong handles together hold
    one weak count. The protocol is stated first on values (`Counts` and its
    transitions, with the invariant `Consistent`), then the handles are classes
    whose methods perform the transitions on a shared `Target` object. */
module IntrusivePtrs {
  import opened Wrappers

  /** `uint32_t`. */
  type Uint32 = x: nat | x < 0x1_0000_0000

  const MaxUint32: Uint32 := 0xFFFF_FFFF

  /** `fetch_add(1) + 1` on a `uint32_t`: wraps to 0 after the maximum. */
  function Inc32(x: Uint32): Uint32 {
    if x == MaxUint32 then 0 else x + 1
  }

  /** `fetch_sub(1) - 1` on a `uint32_t`: wraps to the maximum below 0. */
  function Dec32(x: Uint32): Uint32 {
    if x == 0 then MaxUint32 else x - 1
  }

  /** The two wrapping steps are arithmetic modulo 2^32 and undo each other. */
  lemma WrapIsModular(x: Uint32)
    ensures Inc32(x) == (x + 1) % 0x1_0000_0000
    ensures Dec32(x) == (x + 0xFFFF_FFFF) % 0x1_0000_0000
    ensures Dec32(Inc32(x)) == x && Inc32(Dec32(x)) == x
  {
  }

  /** The counters of one `intrusive_ptr_target`, with two observations the
      protocol is about: how often `release_resources()` ran, and whether the
      target was deleted. */
  datatype Counts = Counts(refcount: Uint32, weakcount: Uint32, released: nat, deleted: bool)

  /** A freshly constructed target: both counters 0. */
  const FreshCounts := Counts(0, 0, 0, false)

  /** The private constructor from a raw pointer: a new target must have zero
      counters and then gets one strong and one weak count. */
  function Adopt(c: Counts): (r: Result<Counts, string>)
    ensures r.Ok? <==> c.refcount == 0 && c.weakcount == 0
    ensures r.Ok? ==> r.value.refcount == 1 && r.value.weakcount == 1
  {
    if c.refcount == 0 && c.weakcount == 0 then Ok(c.(refcount := 1, weakcount := 1))
    else Err("intrusive_ptr: newly created target had non-zero refcount or weakcount")
  }

  /** `intrusive_ptr::retain_()` on a non-null target: increments the strong
      count; the check passes unless the target had already reached 0. */
  function RetainStrong(c: Counts): (r: (Counts, bool))
    ensures r.1 <==> c.refcount != 0
    ensures r.0.weakcount == c.weakcount && r.0.released == c.released && r.0.deleted == c.deleted
  {
    var n := Inc32(c.refcount);
    (c.(refcount := n), n != 1)
  }

  /** `intrusive_ptr::reset_()` on a non-null target: decrements the strong
      count; at 0 the last weak count either deletes the target at once or,
      when weak handles remain, resources are released and the strong side's
      weak count is given up (deleting when that reaches 0). */
  function ResetStrong(c: Counts): Counts {
    var n := Dec32(c.refcount);
    if n != 0 then c.(refcount := n)
    else if c.weakcount == 1 then c.(refcount := 0, deleted := true)
    else
      var w := Dec32(c.weakcount);
      c.(refcount := 0, weakcount := w, released := c.released + 1, deleted := c.deleted || w == 0)
  }

  /** `weak_intrusive_ptr::retain_()` on a non-null target. */
  function RetainWeak(c: Counts): (r: (Counts, bool))
    ensures r.1 <==> c.weakcount != 0
    ensures r.0.refcount == c.refcount && r.0.released == c.released && r.0.deleted == c.deleted
  {
    var n := Inc32(c.weakcount);
    (c.(weakcount := n), n != 1)
  }

  /** `weak_intrusive_ptr::reset_()` on a non-null target: decrements the weak
      count and deletes the target when it reaches 0. */
  function ResetWeak(c: Counts): Counts {
    var w := Dec32(c.weakcount);
    c.(weakcount := w, deleted := c.deleted || w == 0)
  }

  /** `weak_intrusive_ptr::lock()` on a non-null target, without contention:
      an expired target yields a null handle, otherwise the strong count is
      incremented and a strong handle returned (`true`). */
  function TryLock(c: Counts): (r: (Counts, bool))
    ensures r.1 <==> c.refcount != 0
    ensures r.1 ==> r.0 == RetainStrong(c).0
    ensures !r.1 ==> r.0 == c
  {
    if c.refcount == 0 then (c, false)
    else (c.(refcount := Inc32(c.refcount)), true)
  }

  /** The check of `intrusive_ptr::reclaim` on a non-null pointer. */
  predicate ReclaimAllowed(c: Counts) {
    c.refcount == 0 || c.weakcount > 0
  }

  /** The check of `weak_intrusive_ptr::reclaim` on a non-null pointer. */
  predicate WeakReclaimAllowed(c: Counts) {
    c.weakcount > 1 || (c.refcount == 0 && c.weakcount > 0)
  }

  /** The counters agree with `strong` live strong handles and `weak` live weak
      handles: the target is deleted exactly when no handle is left; while it is
      alive the strong count is the number of strong handles, the weak count is
      the number of weak handles plus one for the strong side, and resources
      have been released (once) exactly when only weak handles are left. */
  predicate Consistent(c: Counts, strong: nat, weak: nat) {
    c.released <= 1
    && (c.deleted <==> strong == 0 && weak == 0)
    && (!c.deleted ==>
          c.refcount == strong
          && c.weakcount == weak + (if strong > 0 then 1 else 0)
          && (c.released == 1 <==> strong == 0))
  }

  /** Handle counts that a further handle cannot push past `uint32_t`. */
  predicate Bounded(strong: nat, weak: nat) {
    strong + weak + 2 <= MaxUint32
  }

  /** `make()`: adopting a fresh target gives the state of one strong handle. */
  lemma MakeEstablishes()
    ensures Adopt(FreshCounts) == Ok(Counts(1, 1, 0, false))
    ensures Consistent(Adopt(FreshCounts).value, 1, 0)
  {
  }

  /** Copying a strong handle passes the check and accounts for one more strong handle. */
  lemma RetainStrongKeeps(c: Counts, strong: nat, weak: nat)
    requires Consistent(c, strong, weak) && strong > 0 && Bounded(strong, weak)
    ensures RetainStrong(c).1
    ensures Consistent(RetainStrong(c).0, strong + 1, weak)
  {
  }

  /** Dropping a strong handle accounts for one fewer; the target is deleted
      exactly when it was the last handle, and resources are released exactly
      when it was the last strong handle with weak handles still alive. */
  lemma ResetStrongKeeps(c: Counts, strong: nat, weak: nat)
    requires Consistent(c, strong, weak) && strong > 0
    ensures Consistent(ResetStrong(c), strong - 1, weak)
    ensures ResetStrong(c).deleted <==> strong == 1 && weak == 0
    ensures ResetStrong(c).released == c.released + (if strong == 1 && weak > 0 then 1 else 0)
  {
  }

  /** Creating a weak handle from any live handle passes the check. */
  lemma RetainWeakKeeps(c: Counts, strong: nat, weak: nat)
    requires Consistent(c, strong, weak) && strong + weak > 0 && Bounded(strong, weak)
    ensures RetainWeak(c).1
    ensures Consistent(RetainWeak(c).0, strong, weak + 1)
  {
  }

  /** Dropping a weak handle accounts for one fewer; the target is deleted
      exactly when it was the last handle of all. */
  lemma ResetWeakKeeps(c: Counts, strong: nat, weak: nat)
    requires Consistent(c, strong, weak) && weak > 0
    ensures Consistent(ResetWeak(c), strong, weak - 1)
    ensures ResetWeak(c).deleted <==> strong == 0 && weak == 1
  {
  }

  /** Locking through a live weak handle succeeds exactly while a strong handle
      is alive, and then accounts for the new strong handle. */
  lemma LockKeeps(c: Counts, strong: nat, weak: nat)
    requires Consistent(c, strong, weak) && weak > 0 && Bounded(strong, weak)
    ensures TryLock(c).1 <==> strong > 0
    ensures TryLock(c).1 ==> Consistent(TryLock(c).0, strong + 1, weak)
    ensures !TryLock(c).1 ==> TryLock(c).0 == c
  {
  }

  /** A pointer released from a live strong (weak) handle is accepted back by
      `reclaim`. */
  lemma ReclaimOfReleased(c: Counts, strong: nat, weak: nat)
    requires Consistent(c, strong, weak)
    ensures strong > 0 ==> ReclaimAllowed(c)
    ensures weak > 0 ==> WeakReclaimAllowed(c)
  {
  }

  /** What the reclaim checks reject: a target with strong handles but no weak
      count, and (for weak reclaim) a target whose only weak count is the
      strong side's. */
  lemma ReclaimRejects(c: Counts)
    ensures !ReclaimAllowed(c) <==> c.refcount > 0 && c.weakcount == 0
    ensures !WeakReclaimAllowed(c) <==> c.weakcount == 0 || (c.weakcount == 1 && c.refcount > 0)
  {
  }

  /** Copy assignment between two strong handles of one target takes a copy
      and drops it again, which leaves the counters as they were. */
  lemma {:induction false} SelfAssignmentKeepsCounts(c: Counts, strong: nat, weak: nat)
    requires Consistent(c, strong, weak) && strong > 0 && Bounded(strong, weak)
    ensures ResetStrong(RetainStrong(c).0) == c
  {
    RetainStrongKeeps(c, strong, weak);
  }

  /** `weak_intrusive_ptr::reset()` decrements but keeps the pointer, so the
      destructor decrements a second time. With one strong and one weak handle
      this deletes the target under the strong handle. */
  lemma WeakResetAsWrittenDeletesLiveTarget(c: Counts, strong: nat)
    requires Consistent(c, strong, 1) && strong > 0
    ensures ResetWeak(ResetWeak(c)).deleted
    ensures !Consistent(ResetWeak(ResetWeak(c)), strong, 0)
  {
  }

  /** test3 of the intrusive_ptr tests on counters: make; two weak handles;
      lock (succeeds); reset the first strong handle; lock again (succeeds);
      reset both locked handles; lock fails and only the weak handles remain. */
  lemma Test3Trace()
    ensures
      var made := Adopt(FreshCounts).value;
      var w1 := RetainWeak(made).0;
      var w2 := RetainWeak(w1).0;
      var lock2 := TryLock(w2);
      var reset1 := ResetStrong(lock2.0);
      var lock3 := TryLock(reset1);
      var reset2 := ResetStrong(ResetStrong(lock3.0));
      var lock4 := TryLock(reset2);
      lock2.1 && lock3.1 && !lock4.1
      && reset2 == Counts(0, 2, 1, false) && Consistent(reset2, 0, 2)
  {
  }

  /** test_reclaim and test_reclaim_weak on counters: `release` leaves the
      counters alone, so `reclaim` sees 1/1 (and 1/2 through a weak handle);
      `reclaim_copy` then adds one count. */
  lemma ReclaimTrace()
    ensures
      var made := Adopt(FreshCounts).value;
      ReclaimAllowed(made) && made == Counts(1, 1, 0, false)
      && RetainStrong(made) == (Counts(2, 1, 0, false), true)
    ensures
      var weak := RetainWeak(Adopt(FreshCounts).value).0;
      WeakReclaimAllowed(weak) && weak == Counts(1, 2, 0, false)
      && RetainWeak(weak) == (Counts(1, 3, 0, false), true)
  {
  }

  /** `intrusive_ptr_target`: the two atomic counters (read and written
      without contention here), and as ghost state how often
      `release_resources()` ran and whether the target was deleted. */
  class Target {
    var refcount: Uint32
    var weakcount: Uint32
    ghost var released: nat
    ghost var deleted: bool

    ghost function State(): Counts
      reads this
    {
      Counts(refcount, weakcount, released, deleted)
    }

    /** The constructor (and the copy and move constructors): both counters 0. */
    constructor ()
      ensures State() == FreshCounts
    {
      refcount, weakcount := 0, 0;
      released, deleted := 0, false;
    }
  }

  /** `intrusive_ptr<TTarget>`: a strong handle, `target == null` for the null handle. */
  class IntrusivePtr {
    var target: Target?

    /** The default and `nullptr` constructors. */
    constructor Null()
      ensures target == null
    {
      target := null;
    }

    /** The `DontIncreaseRefcount` constructor: takes the pointer as it is. */
    constructor Raw(t: Target?)
      ensures target == t
    {
      target := t;
    }

    /** `retain_()`: `ok` is the outcome of the check. */
    method Retain() returns (ok: bool)
      modifies target
      ensures target == old(target)
      ensures target == null ==> ok
      ensures target != null ==> (target.State(), ok) == RetainStrong(old(target.State()))
    {
      ok := true;
      if target != null {
        target.refcount := Inc32(target.refcount);
        ok := target.refcount != 1;
      }
    }

    /** `reset_()`, which is also the whole destructor. */
    method Destroy()
      requires target != null ==> !target.deleted
      modifies target
      ensures target == old(target)
      ensures target != null ==> target.State() == ResetStrong(old(target.State()))
    {
      if target != null {
        target.refcount := Dec32(target.refcount);
        if target.refcount == 0 {
          var shouldDelete := target.weakcount == 1;
          if !shouldDelete {
            target.released := target.released + 1;
            target.weakcount := Dec32(target.weakcount);
            shouldDelete := target.weakcount == 0;
          }
          if shouldDelete {
            target.deleted := true;
          }
        }
      }
    }

    /** The private constructor from a new target. When the check fails the
        delegated constructor has already completed, so the handle's
        destructor runs during unwinding. */
    static method FromNew(t: Target?) returns (r: Result<IntrusivePtr, string>)
      requires t != null ==> !t.deleted
      modifies t
      ensures t == null ==> r.Ok? && r.value.target == null
      ensures t != null ==> (r.Ok? <==> Adopt(old(t.State())).Ok?)
      ensures t != null && r.Ok? ==> t.State() == Adopt(old(t.State())).value
      ensures t != null && r.Err? ==> t.State() == ResetStrong(old(t.State()))
      ensures r.Ok? ==> fresh(r.value) && r.value.target == t
    {
      var p := new IntrusivePtr.Raw(t);
      if t != null {
        if !(t.refcount == 0 && t.weakcount == 0) {
          p.Destroy();
          return Err("intrusive_ptr: newly created target had non-zero refcount or weakcount");
        }
        t.refcount := 1;
        t.weakcount := 1;
      }
      r := Ok(p);
    }

    /** `make()` / `make_intrusive()`: a new target owned by one strong handle. */
    static method Make() returns (p: IntrusivePtr)
      ensures fresh(p) && p.target != null && fresh(p.target)
      ensures p.target.State() == Counts(1, 1, 0, false)
    {
      var t := new Target();
      var r := FromNew(t);
      p := r.value;
    }

    /** The copy constructor. When the check fails the handle was never
        constructed, so the incremented count stays. */
    static method Copy(rhs: IntrusivePtr) returns (p: IntrusivePtr, ok: bool)
      modifies rhs.target
      ensures fresh(p) && p.target == rhs.target
      ensures rhs.target == null ==> ok
      ensures rhs.target != null ==> (rhs.target.State(), ok) == RetainStrong(old(rhs.target.State()))
    {
      p := new IntrusivePtr.Raw(rhs.target);
      ok := p.Retain();
    }

    /** The move constructor: the source handle becomes null. */
    static method Move(rhs: IntrusivePtr) returns (p: IntrusivePtr)
      modifies rhs
      ensures fresh(p) && p.target == old(rhs.target) && rhs.target == null
    {
      p := new IntrusivePtr.Raw(rhs.target);
      rhs.target := null;
    }

    /** `swap()`. */
    method Swap(other: IntrusivePtr)
      modifies this, other
      ensures target == old(other.target) && other.target == old(target)
    {
      target, other.target := other.target, target;
    }

    /** Copy assignment: copy `rhs` into a temporary, swap, destroy the
        temporary. A failed check inside this `noexcept` operator terminates
        the program, modelled as returning `ok == false` right after the
        increment. */
    method CopyAssign(rhs: IntrusivePtr) returns (ok: bool)
      requires target != null ==> !target.deleted
      modifies this, target, rhs.target
      ensures ok <==> old(rhs.target) == null || old(rhs.target.refcount) != 0
      ensures !ok ==> target == old(target)
      ensures !ok ==> old(rhs.target).State() == RetainStrong(old(rhs.target.State())).0
      ensures ok ==> target == old(rhs.target)
      ensures ok && old(target) == old(rhs.target) && target != null ==>
        target.State() == ResetStrong(RetainStrong(old(target.State())).0)
      ensures ok && old(target) != old(rhs.target) && target != null ==>
        target.State() == RetainStrong(old(rhs.target.State())).0
      ensures ok && old(target) != old(rhs.target) && old(target) != null ==>
        old(target).State() == ResetStrong(old(target.State()))
    {
      var tmp;
      tmp, ok := Copy(rhs);
      if !ok {
        return;
      }
      Swap(tmp);
      tmp.Destroy();
    }

    /** Move assignment: move `rhs` into a temporary, swap, destroy the
        temporary (which now holds this handle's old target). */
    method MoveAssign(rhs: IntrusivePtr)
      requires target != null ==> !target.deleted
      modifies this, rhs, target
      ensures target == old(rhs.target)
      ensures rhs != this ==> rhs.target == null
      ensures rhs != this && old(target) != null ==>
        old(target).State() == ResetStrong(old(target.State()))
      ensures rhs == this && target != null ==> target.State() == old(target.State())
    {
      var tmp := Move(rhs);
      Swap(tmp);
      tmp.Destroy();
    }

    /** `reset()`: drop the reference and become null. */
    method Reset()
      requires target != null ==> !target.deleted
      modifies this, target
      ensures target == null
      ensures old(target) != null ==> old(target).State() == ResetStrong(old(target.State()))
    {
      Destroy();
      target := null;
    }

    /** `release()`: hand out the pointer without touching the counters. */
    method Release() returns (t: Target?)
      modifies this
      ensures t == old(target) && target == null
    {
      t := target;
      target := null;
    }

    /** `reclaim()`: take over a released pointer, after the check. */
    static method Reclaim(t: Target?) returns (r: Result<IntrusivePtr, string>)
      ensures r.Ok? <==> t == null || ReclaimAllowed(t.State())
      ensures r.Ok? ==> fresh(r.value) && r.value.target == t
    {
      if t != null && !(t.refcount == 0 || t.weakcount > 0) {
        return Err("reclaim() received a invalid pointer that refcout > 0 and weakcount == 0");
      }
      var p := new IntrusivePtr.Raw(t);
      r := Ok(p);
    }

    /** `reclaim_copy()`: reclaim, then retain. When the retain check throws,
        the local handle is destroyed during unwinding. */
    static method ReclaimCopy(t: Target?) returns (r: Result<IntrusivePtr, string>)
      requires t != null ==> !t.deleted
      modifies t
      ensures t == null ==> r.Ok? && r.value.target == null
      ensures t != null ==>
        (r.Ok? <==> ReclaimAllowed(old(t.State())) && RetainStrong(old(t.State())).1)
      ensures t != null && !ReclaimAllowed(old(t.State())) ==> t.State() == old(t.State())
      ensures t != null && r.Ok? ==> t.State() == RetainStrong(old(t.State())).0
      ensures t != null && ReclaimAllowed(old(t.State())) && r.Err? ==>
        t.State() == ResetStrong(RetainStrong(old(t.State())).0)
      ensures r.Ok? ==> fresh(r.value) && r.value.target == t
    {
      r := Reclaim(t);
      if r.Ok? {
        var p := r.value;
        var ok := p.Retain();
        if !ok {
          p.Destroy();
          r := Err("intrusive_ptr: internal error: retain_() called on a target after it reached 0.");
        }
      }
    }

    /** `defined()` and `operator bool`. */
    predicate Defined()
      reads this
      ensures Defined() <==> target != null
    {
      target != null
    }

    /** `ref_use_count()`: 0 for the null handle. */
    function RefUseCount(): (r: Uint32)
      reads this, target
      ensures !Defined() ==> r == 0
      ensures Defined() ==> r == target.State().refcount
    {
      if target == null then 0 else target.refcount
    }

    /** `weak_use_count()`: 0 for the null handle. */
    function WeakUseCount(): (r: Uint32)
      reads this, target
      ensures !Defined() ==> r == 0
      ensures Defined() ==> r == target.State().weakcount
    {
      if target == null then 0 else target.weakcount
    }

    /** `get()`: the target held, without touching the counters. */
    function Get(): (t: Target?)
      reads this
      ensures t == target
      ensures t == null <==> !Defined()
    {
      target
    }

    /** `operator==` between handles: `get()` agrees, so they point at the
        same target. */
    predicate Equals(other: IntrusivePtr)
      reads this, other
      ensures this == other ==> Equals(other)
      ensures Equals(other) <==> Get() == other.Get()
      ensures Equals(other) ==> (Defined() <==> other.Defined())
    {
      target == other.target
    }

    /** `operator==` against `nullptr`. */
    predicate EqualsNull()
      reads this
      ensures EqualsNull() <==> !Defined()
    {
      target == null
    }

    /** `operator!=` between handles. */
    predicate NotEquals(other: IntrusivePtr)
      reads this, other
      ensures NotEquals(other) <==> !Equals(other)
    {
      !Equals(other)
    }

    /** `operator!=` against `nullptr` as written: it compares the handle with
        itself, so it never holds. */
    predicate NotEqualsNullAsWritten()
      reads this
      ensures !NotEqualsNullAsWritten()
    {
      !Equals(this)
    }

    /** `operator!=` against `nullptr` as intended: the negation of `== nullptr`. */
    predicate NotEqualsNull()
      reads this
      ensures NotEqualsNull() <==> Defined()
    {
      !EqualsNull()
    }
  }

  /** `weak_intrusive_ptr<TTarget>`: a weak handle. */
  class WeakIntrusivePtr {
    var target: Target?

    /** The private constructor: takes the pointer as it is. */
    constructor Raw(t: Target?)
      ensures target == t
    {
      target := t;
    }

    /** `retain_()`: `ok` is the outcome of the check. */
    method Retain() returns (ok: bool)
      modifies target
      ensures target == old(target)
      ensures target == null ==> ok
      ensures target != null ==> (target.State(), ok) == RetainWeak(old(target.State()))
    {
      ok := true;
      if target != null {
        target.weakcount := Inc32(target.weakcount);
        ok := target.weakcount != 1;
      }
    }

    /** `reset_()`, which is also the whole destructor. */
    method Destroy()
      requires target != null ==> !target.deleted
      modifies target
      ensures target == old(target)
      ensures target != null ==> target.State() == ResetWeak(old(target.State()))
    {
      if target != null {
        target.weakcount := Dec32(target.weakcount);
        if target.weakcount == 0 {
          target.deleted := true;
        }
      }
    }

    /** The constructor from a strong handle. It delegates to the raw-pointer
        constructor before `retain_()`, so when the check fails the delegated
        constructor has already completed and the handle's destructor runs
        during unwinding, dropping the weak count again. `ok == false`
        stands for that throw, and `w` is then the destroyed handle. */
    static method FromStrong(ptr: IntrusivePtr) returns (w: WeakIntrusivePtr, ok: bool)
      requires ptr.target != null ==> !ptr.target.deleted
      modifies ptr.target
      ensures fresh(w) && w.target == ptr.target
      ensures ptr.target == null ==> ok
      ensures ptr.target != null ==> ok == RetainWeak(old(ptr.target.State())).1
      ensures ptr.target != null && ok ==> ptr.target.State() == RetainWeak(old(ptr.target.State())).0
      ensures ptr.target != null && !ok ==>
        ptr.target.State() == ResetWeak(RetainWeak(old(ptr.target.State())).0)
    {
      w := new WeakIntrusivePtr.Raw(ptr.target);
      ok := w.Retain();
      if !ok {
        w.Destroy();
      }
    }

    /** The copy constructor. */
    static method Copy(rhs: WeakIntrusivePtr) returns (w: WeakIntrusivePtr, ok: bool)
      modifies rhs.target
      ensures fresh(w) && w.target == rhs.target
      ensures rhs.target == null ==> ok
      ensures rhs.target != null ==> (rhs.target.State(), ok) == RetainWeak(old(rhs.target.State()))
    {
      w := new WeakIntrusivePtr.Raw(rhs.target);
      ok := w.Retain();
    }

    /** The move constructor: the source handle becomes null. */
    static method Move(rhs: WeakIntrusivePtr) returns (w: WeakIntrusivePtr)
      modifies rhs
      ensures fresh(w) && w.target == old(rhs.target) && rhs.target == null
    {
      w := new WeakIntrusivePtr.Raw(rhs.target);
      rhs.target := null;
    }

    /** `swap()`. */
    method Swap(other: WeakIntrusivePtr)
      modifies this, other
      ensures target == old(other.target) && other.target == old(target)
    {
      target, other.target := other.target, target;
    }

    /** Copy assignment: nothing on self-assignment; otherwise copy into a
        temporary, swap, destroy the temporary. A failed check terminates the
        program (the operator is `noexcept`), modelled as `ok == false`. */
    method CopyAssign(rhs: WeakIntrusivePtr) returns (ok: bool)
      requires target != null ==> !target.deleted
      modifies this, target, rhs.target
      ensures rhs == this ==> ok && target == old(target) && (target != null ==> target.State() == old(target.State()))
      ensures ok <==> rhs == this || old(rhs.target) == null || old(rhs.target.weakcount) != 0
      ensures !ok ==> target == old(target)
      ensures !ok ==> old(rhs.target).State() == RetainWeak(old(rhs.target.State())).0
      ensures ok ==> target == old(rhs.target)
      ensures rhs != this && ok && old(target) == old(rhs.target) && target != null ==>
        target.State() == ResetWeak(RetainWeak(old(target.State())).0)
      ensures ok && old(target) != old(rhs.target) && target != null ==>
        target.State() == RetainWeak(old(rhs.target.State())).0
      ensures ok && old(target) != old(rhs.target) && old(target) != null ==>
        old(target).State() == ResetWeak(old(target.State()))
    {
      if this == rhs {
        return true;
      }
      var tmp;
      tmp, ok := Copy(rhs);
      if !ok {
        return;
      }
      Swap(tmp);
      tmp.Destroy();
    }

    /** Move assignment: move into a temporary, swap, destroy the temporary. */
    method MoveAssign(rhs: WeakIntrusivePtr)
      requires target != null ==> !target.deleted
      modifies this, rhs, target
      ensures target == old(rhs.target)
      ensures rhs != this ==> rhs.target == null
      ensures rhs != this && old(target) != null ==>
        old(target).State() == ResetWeak(old(target.State()))
      ensures rhs == this && target != null ==> target.State() == old(target.State())
    {
      var tmp := Move(rhs);
      Swap(tmp);
      tmp.Destroy();
    }

    /** `reset()` as written: drops the weak count but keeps the pointer, so
        the handle's destructor will drop it again. */
    method ResetAsWritten()
      requires target != null ==> !target.deleted
      modifies target
      ensures target == old(target)
      ensures target != null ==> target.State() == ResetWeak(old(target.State()))
    {
      Destroy();
    }

    /** `reset()` as intended (and as the strong handle's `reset()` does):
        drop the weak count and become null. */
    method Reset()
      requires target != null ==> !target.deleted
      modifies this, target
      ensures target == null
      ensures old(target) != null ==> old(target).State() == ResetWeak(old(target.State()))
    {
      Destroy();
      target := null;
    }

    /** `unsafe_get_target()`: the pointer held, without touching the counters. */
    function UnsafeGetTarget(): (t: Target?)
      reads this
      ensures t == target
    {
      target
    }

    /** `ref_use_count()`: 0 for the null handle. */
    function RefUseCount(): (r: Uint32)
      reads this, target
      ensures target == null ==> r == 0
      ensures target != null ==> r == target.State().refcount
    {
      if target == null then 0 else target.refcount
    }

    /** `weak_use_count()`: 0 for the null handle. */
    function WeakUseCount(): (r: Uint32)
      reads this, target
      ensures target == null ==> r == 0
      ensures target != null ==> r == target.State().weakcount
    {
      if target == null then 0 else target.weakcount
    }

    /** `expired()`: no strong count is left, so `lock()` gives a null handle. */
    predicate Expired()
      reads this, target
      ensures Expired() <==> target == null || !TryLock(target.State()).1
    {
      RefUseCount() == 0
    }

    /** `lock()`: a null handle when expired, otherwise a strong handle with
        the strong count incremented. The compare-and-swap loop of the source
        succeeds at its first attempt without contention. Like the source, it
        has no precondition on the target: while a weak handle is alive the
        weak count stays positive, so under `Consistent` the target is not
        deleted (ResetWeakKeeps), and its counters can be read. */
    method Lock() returns (p: IntrusivePtr)
      modifies target
      ensures fresh(p)
      ensures target == old(target)
      ensures target == null ==> p.target == null
      ensures target != null ==> (p.target != null <==> TryLock(old(target.State())).1)
      ensures target != null ==> target.State() == TryLock(old(target.State())).0
      ensures p.target != null ==> p.target == target
    {
      if Expired() {
        p := new IntrusivePtr.Null();
        return;
      }
      target.refcount := Inc32(target.refcount);
      p := new IntrusivePtr.Raw(target);
    }

    /** `release()`: hand out the pointer without touching the counters. */
    method Release() returns (t: Target?)
      modifies this
      ensures t == old(target) && target == null
    {
      t := target;
      target := null;
    }

    /** `reclaim()`: take over a released pointer, after the check. */
    static method Reclaim(t: Target?) returns (r: Result<WeakIntrusivePtr, string>)
      ensures r.Ok? <==> t == null || WeakReclaimAllowed(t.State())
      ensures r.Ok? ==> fresh(r.value) && r.value.target == t
    {
      if t != null && !(t.weakcount > 1 || (t.refcount == 0 && t.weakcount > 0)) {
        return Err("weak_intrusive_ptr: reclaim() received a invalid pointer");
      }
      var w := new WeakIntrusivePtr.Raw(t);
      r := Ok(w);
    }

    /** `reclaim_copy()`: reclaim, then retain. */
    static method ReclaimCopy(t: Target?) returns (r: Result<WeakIntrusivePtr, string>)
      modifies t
      ensures t == null ==> r.Ok? && r.value.target == null
      ensures t != null ==>
        (r.Ok? <==> WeakReclaimAllowed(old(t.State())) && RetainWeak(old(t.State())).1)
      ensures t != null && !WeakReclaimAllowed(old(t.State())) ==> t.State() == old(t.State())
      ensures t != null && r.Ok? ==> t.State() == RetainWeak(old(t.State())).0
      ensures r.Ok? ==> fresh(r.value) && r.value.target == t
    {
      r := Reclaim(t);
      if r.Ok? {
        var w := r.value;
        var ok := w.Retain();
        if !ok {
          // the reclaim check leaves a non-zero weak count, so the retain check holds
          assert false;
        }
      }
    }

    /** `operator==` between weak handles: the same target. */
    predicate Equals(other: WeakIntrusivePtr)
      reads this, other
      ensures this == other ==> Equals(other)
      ensures Equals(other) <==> UnsafeGetTarget() == other.UnsafeGetTarget()
    {
      target == other.target
    }
  }

  /** `MaybeOwnedTraits<intrusive_ptr<T>>::createBorrow`: the borrow is a
      handle reclaimed from the owner's pointer, without a count of its own. */
  method CreateBorrow(from: IntrusivePtr) returns (r: Result<IntrusivePtr, string>)
    ensures r.Ok? <==> from.target == null || ReclaimAllowed(from.target.State())
    ensures r.Ok? ==> fresh(r.value) && r.value.target == from.target
  {
    r := IntrusivePtr.Reclaim(from.target);
  }

  /** `assignBorrow`: release the old borrow (no count change) and reclaim
      the new one into it; when `reclaim` throws, `lhs` is left released.
      The source takes `rhs` by value; that copy retains and then resets the
      same target, so it leaves the counters as they were and is not
      modelled (SelfAssignmentKeepsCounts states that retain-then-reset). */
  method AssignBorrow(lhs: IntrusivePtr, rhs: IntrusivePtr) returns (ok: bool)
    modifies lhs
    ensures ok <==> rhs.target == null || ReclaimAllowed(rhs.target.State())
    ensures ok ==> lhs.target == rhs.target
    ensures !ok ==> lhs.target == null
  {
    var _ := lhs.Release();
    var r := IntrusivePtr.Reclaim(rhs.target);
    ok := r.Ok?;
    if ok {
      lhs.MoveAssign(r.value);
    }
  }

  /** `destroyBorrow`: release the borrow, never touching the counters. */
  method DestroyBorrow(b: IntrusivePtr)
    modifies b
    ensures b.target == null
  {
    var _ := b.Release();
  }

  /** The use counts of a strong handle report the handles alive. */
  lemma UseCountsOfStrongHandle(p: IntrusivePtr, strong: nat, weak: nat)
    requires p.target != null && Consistent(p.target.State(), strong, weak) && strong > 0
    ensures p.RefUseCount() == strong && p.WeakUseCount() == weak + 1
  {
  }

  /** `!= nullptr` as written disagrees with its intended meaning on every
      defined handle. */
  lemma NotEqualsNullQuirk(p: IntrusivePtr)
    requires p.Defined()
    ensures !p.NotEqualsNullAsWritten() && p.NotEqualsNull()
  {
  }

  /** test3's steps on the handle classes. */
  method Test3Scenario() returns (defined2: bool, defined3: bool, defined4: bool, t: Target)
    ensures defined2 && defined3 && !defined4
    ensures t.State() == Counts(0, 2, 1, false)
  {
    var ptr := IntrusivePtr.Make();
    t := ptr.target;
    var wptr, ok1 := WeakIntrusivePtr.FromStrong(ptr);
    var wptr2, ok2 := WeakIntrusivePtr.Copy(wptr);
    var ptr2 := wptr.Lock();
    defined2 := ptr2.Defined();
    ptr.Reset();
    var ptr3 := wptr.Lock();
    defined3 := ptr3.Defined();
    ptr2.Reset();
    ptr3.Reset();
    var ptr4 := wptr.Lock();
    defined4 := ptr4.Defined();
  }

  /** test_reclaim's steps on the handle classes. */
  method ReclaimScenario() returns (ref1: Uint32, weak1: Uint32, ref2: Uint32, weak2: Uint32)
    ensures ref1 == 1 && weak1 == 1 && ref2 == 2 && weak2 == 1
  {
    var ptr1 := IntrusivePtr.Make();
    var p := ptr1.Release();
    var pi := IntrusivePtr.Reclaim(p);
    ref1, weak1 := pi.value.RefUseCount(), pi.value.WeakUseCount();
    var p2 := IntrusivePtr.ReclaimCopy(p);
    ref2, weak2 := p2.value.RefUseCount(), p2.value.WeakUseCount();
  }

  /** test_reclaim_weak's steps on the handle classes. */
  method WeakReclaimScenario() returns (ref1: Uint32, weak1: Uint32, ref2: Uint32, weak2: Uint32)
    ensures ref1 == 1 && weak1 == 2 && ref2 == 1 && weak2 == 3
  {
    var ptr1 := IntrusivePtr.Make();
    var tmp, _ := WeakIntrusivePtr.FromStrong(ptr1);
    var p := tmp.Release();
    var pw := WeakIntrusivePtr.Reclaim(p);
    ref1, weak1 := pw.value.RefUseCount(), pw.value.WeakUseCount();
    var pw2 := WeakIntrusivePtr.ReclaimCopy(p);
    ref2, weak2 := pw2.value.RefUseCount(), pw2.value.WeakUseCount();
  }

  /** A weak handle made from a strong handle that reclaimed a fresh target
      (counts 0/0, which `reclaim` accepts): `retain_()` sees the new weak
      count 1 and throws, and the unwinding destructor takes the weak count
      back to 0 and deletes the target. */
  method WeakFromReclaimedFreshScenario() returns (ok: bool, t: Target)
    ensures !ok
    ensures t.State() == Counts(0, 0, 0, true)
  {
    t := new Target();
    var p := IntrusivePtr.Reclaim(t);
    var w;
    w, ok := WeakIntrusivePtr.FromStrong(p.value);
  }

  /** test_operator's steps on the handle classes. */
  method OperatorScenario() returns (ne12: bool, eq111: bool, weq11: bool, weq12: bool)
    ensures ne12 && eq111 && weq11 && !weq12
  {
    var ptr1 := IntrusivePtr.Make();
    var ptr2 := IntrusivePtr.Make();
    ne12 := ptr1.NotEquals(ptr2);
    var ptr11, _ := IntrusivePtr.Copy(ptr1);
    eq111 := ptr1.Equals(ptr11);
    var wptr1, _ := WeakIntrusivePtr.FromStrong(ptr1);
    var wptr11, _ := WeakIntrusivePtr.FromStrong(ptr1);
    weq11 := wptr1.Equals(wptr1);
    var wptr2, _ := WeakIntrusivePtr.FromStrong(ptr2);
    weq12 := wptr1.Equals(wptr2);
  }

  /** test_maybe_owned's steps: a borrow created from a handle made by
      `make_intrusive` adds no count of its own, so it reports one strong
      and one weak use. */
  method MaybeOwnedBorrowScenario() returns (ok: bool, ref: Uint32, weak: Uint32)
    ensures ok && ref == 1 && weak == 1
  {
    var ptr1 := IntrusivePtr.Make();
    var borrowed := CreateBorrow(ptr1);
    ok := borrowed.Ok?;
    ref, weak := borrowed.value.RefUseCount(), borrowed.value.WeakUseCount();
  }
}
