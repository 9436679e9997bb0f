/** c10/util/maybe_owned.h: a value that either borrows an object living
    elsewhere or owns a copy of its own, with the default borrow traits
    (a borrow is a plain pointer to the owner's object). */
module MaybeOwneds {
  import opened Wrappers

  /** An object of type `T` that lives elsewhere and whose address can be
      borrowed; `value` is what it currently holds. */
  class Slot<T> {
    var value: T

    constructor (v: T)
      ensures value == v
    {
      value := v;
    }
  }

  /** `MaybeOwnedTraitsImpl::debugBorrowIsValid`: the borrow pointer is not null. */
  predicate DebugBorrowIsValid<T>(borrow: Slot?<T>) {
    borrow != null
  }

  /** `MaybeOwned<T>`: the tag `isBorrowed` says which member of the union is
      live. `own` is the owned member (`None` while borrowed, standing for the
      union member that is not constructed); `borrow` is the borrow pointer.
      Ghost state: whether the destructor has run, and how many owned
      objects this instance has destroyed. */
  class MaybeOwned<T> {
    var isBorrowed: bool
    var own: Option<T>
    var borrow: Slot?<T>
    ghost var alive: bool
    ghost var ownedDestroyed: nat

    /** The tag agrees with the union member that is live, and the
        destructor has not run. */
    ghost predicate Valid()
      reads this
    {
      alive && (isBorrowed <==> own.None?)
    }

    /** The default constructor: borrowed, with a value-initialised (null) borrow. */
    constructor Default()
      ensures Valid() && isBorrowed && borrow == null && ownedDestroyed == 0
      ensures !DebugBorrowIsValid(borrow)
    {
      isBorrowed := true;
      own := None;
      borrow := null;
      alive, ownedDestroyed := true, 0;
    }

    /** `borrowed(t)` and the private constructor from `const T&`: the
        borrow is `createBorrow(t)`, the address of `t`. */
    constructor Borrowed(t: Slot<T>)
      ensures Valid() && isBorrowed && borrow == t && ownedDestroyed == 0
      ensures DebugBorrowIsValid(borrow) && Deref() == t.value
    {
      isBorrowed := true;
      own := None;
      borrow := t;
      alive, ownedDestroyed := true, 0;
    }

    /** `owned(T&&)` and `owned(in_place, args...)`: owns `t` (the object moved
        in, or the one constructed in place from the arguments). */
    constructor Owned(t: T)
      ensures Valid() && !isBorrowed && own == Some(t) && ownedDestroyed == 0
      ensures Deref() == t
    {
      isBorrowed := false;
      own := Some(t);
      borrow := null;
      alive, ownedDestroyed := true, 0;
    }

    /** The copy constructor: the same tag; the borrow is shared
        (`assignBorrow`), an owned object is copied. */
    constructor Copy(rhs: MaybeOwned<T>)
      requires rhs.Valid()
      ensures Valid() && isBorrowed == rhs.isBorrowed && ownedDestroyed == 0
      ensures isBorrowed ==> borrow == rhs.borrow
      ensures !isBorrowed ==> own == rhs.own
    {
      isBorrowed := rhs.isBorrowed;
      if rhs.isBorrowed {
        own := None;
        borrow := rhs.borrow;
      } else {
        own := rhs.own;
        borrow := null;
      }
      alive, ownedDestroyed := true, 0;
    }

    /** The move constructor: like the copy constructor, except that an owned
        object is moved out of `rhs`, leaving there `movedFrom`, the state
        `T`'s move constructor leaves behind. */
    constructor Move(rhs: MaybeOwned<T>, movedFrom: T)
      requires rhs.Valid()
      modifies rhs
      ensures Valid() && isBorrowed == old(rhs.isBorrowed) && ownedDestroyed == 0
      ensures isBorrowed ==> borrow == old(rhs.borrow) && rhs.own == old(rhs.own)
      ensures !isBorrowed ==> own == old(rhs.own) && rhs.own == Some(movedFrom)
      ensures rhs.Valid() && rhs.isBorrowed == old(rhs.isBorrowed) && rhs.borrow == old(rhs.borrow)
      ensures rhs.ownedDestroyed == old(rhs.ownedDestroyed)
    {
      isBorrowed := rhs.isBorrowed;
      if rhs.isBorrowed {
        own := None;
        borrow := rhs.borrow;
      } else {
        own := rhs.own;
        borrow := null;
        rhs.own := Some(movedFrom);
      }
      alive, ownedDestroyed := true, 0;
    }

    /** `operator*() const &`: the borrowed object or the owned one. */
    ghost function Deref(): T
      requires Valid() && (isBorrowed ==> borrow != null)
      reads this, borrow
    {
      if isBorrowed then borrow.value else own.value
    }

    /** `unsafeIsBorrowed()`. */
    function UnsafeIsBorrowed(): bool
      reads this
    {
      isBorrowed
    }

    /** Copy assignment: nothing on self-assignment; otherwise the four
        cases of (this, rhs) tags, after which the tags agree, so the final
        `TORCH_CHECK` (reported in `checked`) always holds. An owned object
        is destroyed exactly when an owned value takes a borrow. */
    method CopyAssign(rhs: MaybeOwned<T>) returns (checked: bool)
      requires Valid() && rhs.Valid()
      modifies this
      ensures Valid() && checked
      ensures rhs == this ==> (isBorrowed == old(isBorrowed) && own == old(own)
        && borrow == old(borrow) && ownedDestroyed == old(ownedDestroyed))
      ensures isBorrowed == rhs.isBorrowed
      ensures rhs != this && isBorrowed ==> borrow == rhs.borrow
      ensures rhs != this && !isBorrowed ==> own == rhs.own
      ensures ownedDestroyed == old(ownedDestroyed)
        + (if rhs != this && !old(isBorrowed) && rhs.isBorrowed then 1 else 0)
    {
      if this == rhs {
        return true;
      }
      if !isBorrowed {
        if rhs.isBorrowed {
          own := None;
          ownedDestroyed := ownedDestroyed + 1;
          borrow := rhs.borrow;
          isBorrowed := true;
        } else {
          own := rhs.own;
        }
      } else {
        if rhs.isBorrowed {
          borrow := rhs.borrow;
        } else {
          own := rhs.own;
          isBorrowed := false;
        }
      }
      checked := isBorrowed == rhs.isBorrowed;
    }

    /** Move assignment: nothing on self-assignment; otherwise the same four
        cases, moving an owned object out of `rhs` (which keeps
        `movedFrom` there). There is no final check. */
    method MoveAssign(rhs: MaybeOwned<T>, movedFrom: T)
      requires Valid() && rhs.Valid()
      modifies this, rhs
      ensures Valid() && rhs.Valid()
      ensures rhs == this ==> (isBorrowed == old(isBorrowed) && own == old(own)
        && borrow == old(borrow) && ownedDestroyed == old(ownedDestroyed))
      ensures rhs != this ==> (isBorrowed == old(rhs.isBorrowed)
        && (isBorrowed ==> borrow == old(rhs.borrow))
        && (!isBorrowed ==> own == old(rhs.own) && rhs.own == Some(movedFrom))
        && (old(rhs.isBorrowed) ==> rhs.own == old(rhs.own))
        && rhs.isBorrowed == old(rhs.isBorrowed) && rhs.borrow == old(rhs.borrow)
        && rhs.ownedDestroyed == old(rhs.ownedDestroyed))
      ensures rhs != this ==> (ownedDestroyed == old(ownedDestroyed)
        + (if !old(isBorrowed) && old(rhs.isBorrowed) then 1 else 0))
    {
      if this == rhs {
        return;
      }
      if !isBorrowed {
        if rhs.isBorrowed {
          own := None;
          ownedDestroyed := ownedDestroyed + 1;
          borrow := rhs.borrow;
          isBorrowed := true;
        } else {
          own := rhs.own;
          rhs.own := Some(movedFrom);
        }
      } else {
        if rhs.isBorrowed {
          borrow := rhs.borrow;
        } else {
          own := rhs.own;
          rhs.own := Some(movedFrom);
          isBorrowed := false;
        }
      }
    }

    /** `operator*() &&`: a copy of the borrowed object, or the owned object
        moved out (leaving `movedFrom` behind). */
    method Take(movedFrom: T) returns (v: T)
      requires Valid() && (isBorrowed ==> borrow != null)
      modifies this
      ensures Valid() && v == old(Deref())
      ensures isBorrowed == old(isBorrowed) && borrow == old(borrow) && ownedDestroyed == old(ownedDestroyed)
      ensures !isBorrowed ==> own == Some(movedFrom)
      ensures isBorrowed ==> own == old(own)
    {
      if isBorrowed {
        v := borrow.value;
      } else {
        v := own.value;
        own := Some(movedFrom);
      }
    }

    /** The destructor: destroys an owned object; destroying a borrow does nothing. */
    method Destroy()
      requires Valid()
      modifies this
      ensures !alive
      ensures ownedDestroyed == old(ownedDestroyed) + (if old(isBorrowed) then 0 else 1)
      ensures isBorrowed == old(isBorrowed) && borrow == old(borrow)
    {
      if !isBorrowed {
        own := None;
        ownedDestroyed := ownedDestroyed + 1;
      }
      alive := false;
    }
  }

  /** test1 of the MaybeOwned tests: a borrow and its copy see the owner's
      object, destroying the first borrow leaves the second one intact, and
      an in-place owned copy holds the same value. */
  method Test1Scenario<T>(x: T) returns (seen: T, seenByCopy: T, seenOwned: T)
    ensures seen == x && seenByCopy == x && seenOwned == x
  {
    var p := new Slot(x);
    var maybeOwned := new MaybeOwned.Borrowed(p);
    seen := maybeOwned.borrow.value;
    var maybeOwned2 := new MaybeOwned.Copy(maybeOwned);
    maybeOwned.Destroy();
    seenByCopy := maybeOwned2.Take(x);
    var maybeOwned3 := new MaybeOwned.Owned(p.value);
    seenOwned := maybeOwned3.own.value;
  }

  /** test3: copy-assigning a borrow to an owned value makes it borrowed. */
  method Test3Scenario<T>(x: T, y: T) returns (ownedIsBorrowed: bool, borrowedIsBorrowed: bool)
    ensures ownedIsBorrowed && borrowedIsBorrowed
  {
    var owned := new MaybeOwned.Owned(x);
    var p2 := new Slot(y);
    var borrowed := new MaybeOwned.Borrowed(p2);
    var _ := owned.CopyAssign(borrowed);
    ownedIsBorrowed, borrowedIsBorrowed := owned.UnsafeIsBorrowed(), borrowed.UnsafeIsBorrowed();
  }

  /** test5: copy-assigning an owned value to a borrow makes it owned. */
  method Test5Scenario<T>(x: T, y: T) returns (ownedIsBorrowed: bool, borrowedIsBorrowed: bool)
    ensures !ownedIsBorrowed && !borrowedIsBorrowed
  {
    var owned := new MaybeOwned.Owned(x);
    var p2 := new Slot(y);
    var borrowed := new MaybeOwned.Borrowed(p2);
    var _ := borrowed.CopyAssign(owned);
    ownedIsBorrowed, borrowedIsBorrowed := owned.UnsafeIsBorrowed(), borrowed.UnsafeIsBorrowed();
  }

  /** test6: move-assigning a borrow to an owned value makes it borrowed. */
  method Test6Scenario<T>(x: T, y: T, movedFrom: T) returns (ownedIsBorrowed: bool)
    ensures ownedIsBorrowed
  {
    var owned := new MaybeOwned.Owned(x);
    var p2 := new Slot(y);
    var borrowed := new MaybeOwned.Borrowed(p2);
    owned.MoveAssign(borrowed, movedFrom);
    ownedIsBorrowed := owned.UnsafeIsBorrowed();
  }

  /** test7: move-assigning an owned value to a borrow makes it owned. */
  method Test7Scenario<T>(x: T, y: T, movedFrom: T) returns (borrowedIsBorrowed: bool)
    ensures !borrowedIsBorrowed
  {
    var owned := new MaybeOwned.Owned(x);
    var p2 := new Slot(y);
    var borrowed := new MaybeOwned.Borrowed(p2);
    borrowed.MoveAssign(owned, movedFrom);
    borrowedIsBorrowed := borrowed.UnsafeIsBorrowed();
  }
}
