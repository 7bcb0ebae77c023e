/** The single-element storage bridge (`UnsafeCellSlice`) with the three access tiers it
    backs: raw pointers, copy-in/copy-out access and references. A pointer or a reference
    is modelled by the offset of the element it addresses; element `i` sits at offset `i`. */
module CellSlice {
  import opened Panics
  import Collection

  /** Address of one element of the wrapped buffer. `*const T`, `*mut T`, `&T` and `&mut T`
      derived from the same index all carry the same address. */
  datatype Ptr = Ptr(offset: nat)

  class CellSlice<T> {
    /** The wrapped buffer: the caller's slice (borrowed view) or the allocation the view
        took over (owned view). */
    const data: array<T>
    /** True for a view built from a `Box<[T]>`, which can be turned back into one. */
    const owned: bool

    /** `new_borrowed`: the view works on the caller's own buffer, so writes through the
        view are in the caller's buffer once the view is dropped. */
    constructor NewBorrowed(slice: array<T>)
      ensures data == slice && !owned && Len() == slice.Length
    {
      data := slice;
      owned := false;
    }

    /** `new_owned`: the view takes over the allocation without copying it. */
    constructor NewOwned(boxed: array<T>)
      ensures data == boxed && owned && Len() == boxed.Length
    {
      data := boxed;
      owned := true;
    }

    /** `into_inner` and `From<UnsafeCellSlice<..>> for Box<[T]>`: the same allocation,
        with the same length and contents, goes back to the caller. */
    method IntoInner() returns (boxed: array<T>)
      requires owned
      ensures boxed == data && boxed.Length == Len() && boxed[..] == data[..]
    {
      boxed := data;
    }

    /** `From<UnsafeCellSlice<..>> for Vec<T>`: `into_inner` followed by `into_vec`. */
    method IntoVec() returns (v: seq<T>)
      requires owned
      ensures |v| == Len() && v == data[..]
    {
      var boxed := IntoInner();
      v := boxed[..];
    }

    /** `len`: the length of the wrapped buffer, so the bounds check admits exactly the
        buffer's indices. */
    function Len(): (n: nat)
      ensures forall i: nat :: Collection.AssertInBounds(n, i).Pass? <==> i < data.Length
    {
      data.Length
    }

    // Pointer tier

    /** `get_mut_ptr_unchecked`: the address of element `index`; `index < len` is a debug
        assertion, so a precondition here. */
    function GetMutPtrUnchecked(index: nat): (p: Ptr)
      requires index < Len()
      ensures p.offset == index && p.offset < data.Length
    {
      Ptr(index)
    }

    /** `get_ptr_unchecked`: the mutable pointer cast to a const one, same address. */
    function GetPtrUnchecked(index: nat): (p: Ptr)
      requires index < Len()
      ensures p == GetMutPtrUnchecked(index)
    {
      GetMutPtrUnchecked(index)
    }

    /** `get_ptr`: bounds check, then the unchecked pointer. */
    function GetPtr(index: nat): (r: Result<Ptr>)
      ensures r.Ok? <==> index < Len()
      ensures r.Ok? ==> r.value == GetPtrUnchecked(index)
      ensures r.Err? ==> r.panic == IndexOutOfBounds(index, Len())
    {
      match Collection.AssertInBounds(Len(), index)
      case Fail(p) => Err(p)
      case Pass => Ok(GetPtrUnchecked(index))
    }

    /** `get_mut_ptr`: bounds check, then the unchecked pointer. */
    function GetMutPtr(index: nat): (r: Result<Ptr>)
      ensures r.Ok? <==> index < Len()
      ensures r.Ok? ==> r.value == GetMutPtrUnchecked(index)
      ensures r.Err? ==> r.panic == IndexOutOfBounds(index, Len())
    {
      match Collection.AssertInBounds(Len(), index)
      case Fail(p) => Err(p)
      case Pass => Ok(GetMutPtrUnchecked(index))
    }

    /** `get_ptr` of the older `PointerParSlice` snapshot: the same bounds check as `GetPtr`,
        made with a bare `assert!`, so its panic reports no numbers. */
    function LegacyGetPtr(index: nat): (r: Result<Ptr>)
      ensures r.Ok? <==> GetPtr(index).Ok?
      ensures r.Ok? ==> r.value == GetPtr(index).value
      ensures r.Err? ==> r.panic == AssertionFailed
    {
      if index < Len() then Ok(GetPtrUnchecked(index)) else Err(AssertionFailed)
    }

    /** `get_mut_ptr` of the older snapshot: as `GetMutPtr`, with a bare `assert!`. */
    function LegacyGetMutPtr(index: nat): (r: Result<Ptr>)
      ensures r.Ok? <==> GetMutPtr(index).Ok?
      ensures r.Ok? ==> r.value == GetMutPtr(index).value
      ensures r.Err? ==> r.panic == AssertionFailed
    {
      if index < Len() then Ok(GetMutPtrUnchecked(index)) else Err(AssertionFailed)
    }

    /** Reading through a pointer (`*p`, a bitwise copy). */
    function Load(p: Ptr): T
      requires p.offset < data.Length
      reads data
    {
      data[p.offset]
    }

    /** Writing through a pointer (`*p = value`): that element changes, no other. */
    method Store(p: Ptr, value: T)
      requires p.offset < data.Length
      modifies data
      ensures data[..] == old(data[..])[p.offset := value]
    {
      data[p.offset] := value;
    }

    // Copy-in/copy-out tier

    /** `get_unchecked`: a copy of element `index`. */
    function GetUnchecked(index: nat): (v: T)
      requires index < Len()
      reads data
      ensures v == data[index]
    {
      Load(GetPtrUnchecked(index))
    }

    /** `get`: read through the checked pointer. It panics exactly when the index is out
        of bounds and otherwise returns what `get_unchecked` returns. */
    function Get(index: nat): (r: Result<T>)
      reads data
      ensures r.Ok? <==> index < Len()
      ensures r.Ok? ==> r.value == GetUnchecked(index)
      ensures r.Err? ==> r.panic == IndexOutOfBounds(index, Len())
    {
      match GetPtr(index)
      case Err(p) => Err(p)
      case Ok(ptr) => Ok(Load(ptr))
    }

    /** `set_unchecked`: element `index` becomes `value`, every other element keeps its
        value. */
    method SetUnchecked(index: nat, value: T)
      requires index < Len()
      modifies data
      ensures data[..] == old(data[..])[index := value]
    {
      Store(GetMutPtrUnchecked(index), value);
    }

    /** `set`: write through the checked pointer. An out-of-bounds index panics before
        anything is written. */
    method Set(index: nat, value: T) returns (r: Outcome)
      modifies data
      ensures r.Pass? <==> index < Len()
      ensures r.Pass? ==> data[..] == old(data[..])[index := value]
      ensures r.Fail? ==> r.panic == IndexOutOfBounds(index, Len()) && data[..] == old(data[..])
    {
      match GetMutPtr(index)
      case Err(p) =>
        r := Fail(p);
      case Ok(ptr) =>
        Store(ptr, value);
        r := Pass;
    }

    /** `get` of the older blanket copy tier: read through the legacy checked pointer; it
        agrees with `Get` except that its panic reports no numbers. */
    function LegacyGet(index: nat): (r: Result<T>)
      reads data
      ensures r.Ok? <==> Get(index).Ok?
      ensures r.Ok? ==> r.value == Get(index).value
      ensures r.Err? ==> r.panic == AssertionFailed
    {
      match LegacyGetPtr(index)
      case Err(p) => Err(p)
      case Ok(ptr) => Ok(Load(ptr))
    }

    /** `set` of the older blanket copy tier: write through the legacy checked pointer. */
    method LegacySet(index: nat, value: T) returns (r: Outcome)
      modifies data
      ensures r.Pass? <==> index < Len()
      ensures r.Pass? ==> data[..] == old(data[..])[index := value]
      ensures r.Fail? ==> r.panic == AssertionFailed && data[..] == old(data[..])
    {
      match LegacyGetMutPtr(index)
      case Err(p) =>
        r := Fail(p);
      case Ok(ptr) =>
        Store(ptr, value);
        r := Pass;
    }

    // Reference tier: a reference is the address of the element it denotes

    /** `get_unchecked` of the reference tier: a shared reference to element `index`. */
    function GetRefUnchecked(index: nat): (p: Ptr)
      requires index < Len()
      reads data
      ensures p.offset == index && p == GetMutPtrUnchecked(index)
      ensures p.offset < data.Length && Load(p) == data[index]
    {
      GetPtrUnchecked(index)
    }

    /** `get_mut_unchecked`: an exclusive reference to element `index`. */
    function GetMutUnchecked(index: nat): (p: Ptr)
      requires index < Len()
      reads data
      ensures p.offset == index && p == GetMutPtrUnchecked(index)
      ensures p.offset < data.Length && Load(p) == data[index]
    {
      GetMutPtrUnchecked(index)
    }

    /** `get` of the reference tier: bounds check, then the reference `get_unchecked` gives. */
    function GetRef(index: nat): (r: Result<Ptr>)
      reads data
      ensures r.Ok? <==> index < Len()
      ensures r.Ok? ==> r.value == GetRefUnchecked(index)
      ensures r.Err? ==> r.panic == IndexOutOfBounds(index, Len())
    {
      match Collection.AssertInBounds(Len(), index)
      case Fail(p) => Err(p)
      case Pass => Ok(GetRefUnchecked(index))
    }

    /** `get_mut`: bounds check, then the reference `get_mut_unchecked` gives. */
    function GetMut(index: nat): (r: Result<Ptr>)
      reads data
      ensures r.Ok? <==> index < Len()
      ensures r.Ok? ==> r.value == GetMutUnchecked(index)
      ensures r.Err? ==> r.panic == IndexOutOfBounds(index, Len())
    {
      match Collection.AssertInBounds(Len(), index)
      case Fail(p) => Err(p)
      case Pass => Ok(GetMutUnchecked(index))
    }

    /** Distinct indices give distinct, non-overlapping locations. */
    lemma DistinctIndicesDistinctLocations(i: nat, j: nat)
      requires i < Len() && j < Len() && i != j
      ensures GetMutPtrUnchecked(i) != GetMutPtrUnchecked(j)
      ensures GetPtrUnchecked(i) != GetPtrUnchecked(j)
    {
    }
  }
}
