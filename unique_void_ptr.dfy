/** c10/util/UniqueVoidPtr.h: a raw data pointer paired with an owning
    context pointer (a `std::unique_ptr<void, DeleterFnPtr>`) whose deleter
    can be swapped by compare and exchange. */
module UniqueVoidPtrs {

  /** A `void*`: an address, 0 being `nullptr`. */
  type Address = nat

  const Null: Address := 0

  /** A `DeleterFnPtr`, identified by the function it points to. */
  type Deleter = nat

  /** `&detail::deleteNothing`. */
  const DeleteNothing: Deleter := 0

  /** `UniqueVoidPtr`: `data` is `data_`; `ctx` and `deleter` are the
      pointer and deleter held by `ctx_`. `deleterCalls` records each call
      the `unique_ptr` makes of its deleter, as (deleter, pointer). */
  class UniqueVoidPtr {
    var data: Address
    var ctx: Address
    var deleter: Deleter
    ghost var deleterCalls: seq<(Deleter, Address)>

    /** `UniqueVoidPtr()`: null data, null context, `deleteNothing`. */
    constructor Default()
      ensures data == Null && ctx == Null && deleter == DeleteNothing && deleterCalls == []
    {
      data, ctx, deleter := Null, Null, DeleteNothing;
      deleterCalls := [];
    }

    /** `UniqueVoidPtr(data)`: the data pointer with a null context. */
    constructor OfData(d: Address)
      ensures data == d && ctx == Null && deleter == DeleteNothing && deleterCalls == []
    {
      data, ctx, deleter := d, Null, DeleteNothing;
      deleterCalls := [];
    }

    /** `UniqueVoidPtr(data, ctx, deleter)`. */
    constructor (d: Address, c: Address, del: Deleter)
      ensures data == d && ctx == c && deleter == del && deleterCalls == []
    {
      data, ctx, deleter := d, c, del;
      deleterCalls := [];
    }

    /** `get()` and `operator->()`. */
    function Get(): (r: Address)
      reads this
      ensures r != Null ==> IsSet()
    {
      data
    }

    /** `get_context()`. */
    function GetContext(): (r: Address)
      reads this
      ensures r != Null ==> IsSet()
      ensures r == CastContext(deleter)
    {
      ctx
    }

    /** `get_deleter()`. */
    function GetDeleter(): (r: Deleter)
      reads this
      ensures CastContext(r) == ctx
    {
      deleter
    }

    /** `clear()`: assigning `nullptr` to `ctx_` runs the deleter on a
        non-null context (the deleter itself stays), then data is nulled. */
    method Clear()
      modifies this
      ensures data == Null && ctx == Null && deleter == old(deleter)
      ensures deleterCalls == old(deleterCalls) + (if old(ctx) != Null then [(old(deleter), old(ctx))] else [])
    {
      if ctx != Null {
        deleterCalls := deleterCalls + [(deleter, ctx)];
      }
      ctx := Null;
      data := Null;
    }

    /** `release_context()`: gives up ownership of the context without
        deleting it. */
    method ReleaseContext() returns (c: Address)
      modifies this
      ensures c == old(ctx) && ctx == Null
      ensures data == old(data) && deleter == old(deleter) && deleterCalls == old(deleterCalls)
    {
      c := ctx;
      ctx := Null;
    }

    /** `compare_exchange_deleter(expected, new)`: installs `new` and keeps
        the context when the current deleter is `expected`; otherwise
        nothing changes. The context moves into a new `unique_ptr`, so no
        deleter runs either way. */
    method CompareExchangeDeleter(expected: Deleter, newDeleter: Deleter) returns (ok: bool)
      modifies this
      ensures ok <==> old(deleter) == expected
      ensures deleter == (if ok then newDeleter else old(deleter))
      ensures data == old(data) && ctx == old(ctx) && deleterCalls == old(deleterCalls)
    {
      if deleter != expected {
        return false;
      }
      var released := ctx;
      ctx := Null;
      ctx, deleter := released, newDeleter;
      return true;
    }

    /** `cast_context<T>(expected)`: the context when the deleter matches,
        null otherwise. */
    function CastContext(expected: Deleter): (r: Address)
      reads this
      ensures deleter == expected ==> r == ctx
      ensures deleter != expected ==> r == Null
    {
      if deleter != expected then Null else ctx
    }

    /** `operator bool()`: data or context is set. */
    predicate IsSet()
      reads this
      ensures IsSet() <==> data != Null || ctx != Null
    {
      data != Null || ctx != Null
    }

    /** `sp == nullptr` and `nullptr == sp`. */
    predicate EqualsNull()
      reads this
      ensures EqualsNull() <==> data == Null && ctx == Null
    {
      !IsSet()
    }

    /** `sp != nullptr` and `nullptr != sp`. */
    predicate NotEqualsNull()
      reads this
      ensures NotEqualsNull() <==> !EqualsNull()
    {
      IsSet()
    }
  }

  /** A context handed over through `compare_exchange_deleter` and then
      released is never deleted: the first exchange with the wrong
      expected deleter fails, the second succeeds, and `clear` after
      `release_context` runs no deleter and leaves the pointer null. */
  method ContextHandoverScenario(d: Address, c: Address, del: Deleter, other: Deleter)
    returns (first: bool, second: bool, cast: Address, released: Address, isNullAfter: bool,
             ghost calls: nat)
    requires d != Null && c != Null && del != other
    ensures !first && second && cast == c && released == c && isNullAfter && calls == 0
  {
    var p := new UniqueVoidPtr(d, c, del);
    first := p.CompareExchangeDeleter(other, del);
    second := p.CompareExchangeDeleter(del, other);
    cast := p.CastContext(other);
    released := p.ReleaseContext();
    p.Clear();
    isNullAfter := p.EqualsNull();
    calls := |p.deleterCalls|;
  }

  /** `clear` on a pointer that still owns its context runs the deleter
      on it exactly once. */
  method ClearDeletesScenario(d: Address, c: Address, del: Deleter)
    returns (ghost calls: seq<(Deleter, Address)>, isNullAfter: bool)
    requires c != Null
    ensures calls == [(del, c)] && isNullAfter
  {
    var p := new UniqueVoidPtr(d, c, del);
    p.Clear();
    calls := p.deleterCalls;
    isNullAfter := p.EqualsNull();
  }
}
