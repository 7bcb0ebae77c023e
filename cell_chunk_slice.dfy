/** The chunked storage bridge (`UnsafeCellChunkSlice`) with the three access tiers it
    backs. The wrapped buffer of `len * chunk_size` elements is read and written chunk by
    chunk; chunk `i` is the run `[i * chunk_size, (i + 1) * chunk_size)`. */
module CellChunkSlice {
  import opened Panics
  import Collection
  import opened ChunkLayout

  /** A pointer (or a reference) to a chunk: the offset of its first element and its
      length, as the fat pointer `*mut [T]` carries them. */
  datatype SlicePtr = SlicePtr(offset: nat, len: nat)

  /** The divisibility assertion of the bridge's constructors, `assert_eq!(len % chunk_size, 0)`:
      a zero chunk size fails on the remainder itself, a non-divisor fails the equality. */
  function CheckDivisible(len: nat, chunkSize: nat): (r: Outcome)
    ensures r.Pass? <==> chunkSize > 0 && len % chunkSize == 0
    ensures chunkSize == 0 ==> r == Fail(RemainderByZero(len))
    ensures chunkSize > 0 && len % chunkSize != 0 ==> r == Fail(AssertEqFailed(len % chunkSize, 0))
  {
    if chunkSize == 0 then Fail(RemainderByZero(len))
    else if len % chunkSize != 0 then Fail(AssertEqFailed(len % chunkSize, 0))
    else Pass
  }

  /** `UnsafeCellChunkSlice::new_borrowed`: checks divisibility, then views the caller's
      buffer as `len / chunk_size` chunks. */
  method NewBorrowed<T(0)>(slice: array<T>, chunkSize: nat) returns (r: Result<CellChunkSlice<T>>)
    ensures r.Ok? <==> CheckDivisible(slice.Length, chunkSize).Pass?
    ensures r.Err? ==> r.panic == CheckDivisible(slice.Length, chunkSize).panic
    ensures r.Ok? ==> fresh(r.value) && r.value.Valid() && r.value.data == slice && !r.value.owned
    ensures r.Ok? ==> r.value.chunkSize == chunkSize && r.value.len == slice.Length / chunkSize
  {
    var check := CheckDivisible(slice.Length, chunkSize);
    if check.Fail? {
      return Err(check.panic);
    }
    var view := new CellChunkSlice.Wrap(slice, chunkSize, false);
    r := Ok(view);
  }

  /** `UnsafeCellChunkSlice::new_owned`: the same check, then the view takes over the
      allocation. */
  method NewOwned<T(0)>(boxed: array<T>, chunkSize: nat) returns (r: Result<CellChunkSlice<T>>)
    ensures r.Ok? <==> CheckDivisible(boxed.Length, chunkSize).Pass?
    ensures r.Err? ==> r.panic == CheckDivisible(boxed.Length, chunkSize).panic
    ensures r.Ok? ==> fresh(r.value) && r.value.Valid() && r.value.data == boxed && r.value.owned
    ensures r.Ok? ==> r.value.chunkSize == chunkSize && r.value.len == boxed.Length / chunkSize
  {
    var check := CheckDivisible(boxed.Length, chunkSize);
    if check.Fail? {
      return Err(check.panic);
    }
    var view := new CellChunkSlice.Wrap(boxed, chunkSize, true);
    r := Ok(view);
  }

  class CellChunkSlice<T(0)> {
    /** The wrapped buffer, borrowed or owned. */
    const data: array<T>
    /** Number of chunks, computed once at construction. */
    const len: nat
    const chunkSize: nat
    /** True for a view built from a `Box<[T]>`, which can be turned back into one. */
    const owned: bool

    /** The chunk partition is exact: a positive chunk size and no remainder elements. */
    ghost predicate Valid()
    {
      chunkSize > 0 && data.Length == len * chunkSize
    }

    /** The struct literal of the constructors, once the divisibility check has passed. */
    constructor Wrap(slice: array<T>, chunkSize: nat, owned: bool)
      requires chunkSize > 0 && slice.Length % chunkSize == 0
      ensures Valid() && data == slice && this.owned == owned
      ensures this.chunkSize == chunkSize && len == slice.Length / chunkSize
    {
      data := slice;
      len := slice.Length / chunkSize;
      this.chunkSize := chunkSize;
      this.owned := owned;
    }

    /** `into_inner` and `From<UnsafeCellChunkSlice<..>> for Box<[T]>`: the same allocation
        goes back to the caller. */
    method IntoInner() returns (boxed: array<T>)
      requires owned
      ensures boxed == data && boxed[..] == data[..]
    {
      boxed := data;
    }

    /** `From<UnsafeCellChunkSlice<..>> for Vec<T>`: `into_inner` followed by `into_vec`. */
    method IntoVec() returns (v: seq<T>)
      requires owned
      ensures v == data[..]
    {
      var boxed := IntoInner();
      v := boxed[..];
    }

    /** `len`: the number of chunks, which tile the buffer exactly. */
    function Len(): (n: nat)
      ensures Valid() ==> n * chunkSize == data.Length
    {
      len
    }

    /** `chunk_size`: never zero, and a divisor of the buffer's length. */
    function ChunkSize(): (n: nat)
      ensures Valid() ==> n > 0 && data.Length % n == 0
    {
      WholeChunks(len, chunkSize);
      chunkSize
    }

    /** `num_elements`: the buffer's own length, which agrees with the default
        `len * chunk_size`. */
    function NumElements(): (n: nat)
      requires Valid()
      ensures n == Collection.NumElements(Len(), ChunkSize())
    {
      data.Length
    }

    /** `num_chunks`: `len`, the number of whole chunks in the buffer. */
    function NumChunks(): (n: nat)
      requires Valid()
      ensures n == Len() && n * ChunkSize() == NumElements()
    {
      len
    }

    // Pointer tier

    /** `get_mut_ptr_unchecked`: a fat pointer to exactly the elements of chunk `index`,
        inside the buffer; `index < len` is a debug assertion, so a precondition here. */
    function GetMutPtrUnchecked(index: nat): (p: SlicePtr)
      requires Valid() && index < Len()
      ensures p.len == ChunkSize() && p.offset + p.len <= data.Length
      ensures forall k: nat :: InChunk(k, index, chunkSize) <==> p.offset <= k < p.offset + p.len
    {
      ChunkInBounds(index, len, chunkSize);
      SlicePtr(ChunkStart(index, chunkSize), chunkSize)
    }

    /** `get_ptr_unchecked`: the mutable pointer cast to a const one. */
    function GetPtrUnchecked(index: nat): (p: SlicePtr)
      requires Valid() && index < Len()
      ensures p == GetMutPtrUnchecked(index)
    {
      GetMutPtrUnchecked(index)
    }

    /** `get_ptr` on chunks: the bounds check is against the number of chunks. */
    function GetPtr(index: nat): (r: Result<SlicePtr>)
      requires Valid()
      ensures r.Ok? <==> index < Len()
      ensures r.Ok? ==> r.value == GetPtrUnchecked(index)
      ensures r.Err? ==> r.panic == IndexOutOfBounds(index, Len())
    {
      match Collection.AssertInBounds(Len(), index)
      case Fail(p) => Err(p)
      case Pass => Ok(GetPtrUnchecked(index))
    }

    /** `get_mut_ptr` on chunks. */
    function GetMutPtr(index: nat): (r: Result<SlicePtr>)
      requires Valid()
      ensures r.Ok? <==> index < Len()
      ensures r.Ok? ==> r.value == GetMutPtrUnchecked(index)
      ensures r.Err? ==> r.panic == IndexOutOfBounds(index, Len())
    {
      match Collection.AssertInBounds(Len(), index)
      case Fail(p) => Err(p)
      case Pass => Ok(GetMutPtrUnchecked(index))
    }

    /** The elements a chunk pointer covers. */
    function LoadChunk(p: SlicePtr): seq<T>
      requires p.offset + p.len <= data.Length
      reads data
    {
      data[p.offset..p.offset + p.len]
    }

    /** Chunk pointers of distinct chunks cover non-overlapping ranges. */
    lemma DistinctChunksDisjoint(i: nat, j: nat)
      requires Valid() && i < Len() && j < Len() && i != j
      ensures var p, q := GetMutPtrUnchecked(i), GetMutPtrUnchecked(j);
        p.offset + p.len <= q.offset || q.offset + q.len <= p.offset
    {
      if i < j {
        MulMonotone(i + 1, j, chunkSize);
      } else {
        MulMonotone(j + 1, i, chunkSize);
      }
    }

    // Copy-in/copy-out tier

    /** The copy loop of the chunk read: element `k` of chunk `index` goes to `out[k]`. */
    method GetUncheckedInto(index: nat, out: array<T>)
      requires Valid() && index < Len() && out.Length == ChunkSize() && out != data
      modifies out
      ensures out[..] == ReadChunk(data[..], index, chunkSize)
    {
      var p := GetPtrUnchecked(index);
      var k := 0;
      while k < p.len
        invariant 0 <= k <= p.len
        invariant forall m :: 0 <= m < k ==> out[m] == data[p.offset + m]
      {
        out[k] := data[p.offset + k];
        k := k + 1;
      }
    }

    /** `get_unchecked` of the copy tier: a fresh buffer of `chunk_size` elements holding a
        copy of chunk `index`; the view is not changed. */
    method GetUnchecked(index: nat) returns (res: array<T>)
      requires Valid() && index < Len()
      ensures fresh(res) && res[..] == ReadChunk(data[..], index, chunkSize)
    {
      res := new T[GetPtrUnchecked(index).len];
      GetUncheckedInto(index, res);
    }

    /** `get` of the copy tier: the index is checked first, then the length of `out`; only
        when both pass is `out` overwritten with a copy of the chunk. */
    method GetInto(index: nat, out: array<T>) returns (r: Outcome)
      requires Valid() && out != data
      modifies out
      ensures r.Pass? <==> index < Len() && out.Length == ChunkSize()
      ensures index >= Len() ==> r == Fail(IndexOutOfBounds(index, Len()))
      ensures index < Len() && out.Length != ChunkSize() ==> r == Fail(ChunkLengthMismatch(out.Length, ChunkSize()))
      ensures r.Pass? ==> out[..] == ReadChunk(data[..], index, chunkSize)
      ensures r.Fail? ==> out[..] == old(out[..])
    {
      r := Collection.AssertInBounds(Len(), index);
      if r.Fail? {
        return;
      }
      r := Collection.AssertChunkCompatible(ChunkSize(), out.Length);
      if r.Fail? {
        return;
      }
      GetUncheckedInto(index, out);
    }

    /** `set_unchecked` of the copy tier: the write loop copies `value[k]` to element
        `index * chunk_size + k`; elements outside chunk `index` keep their values. */
    method SetUnchecked(index: nat, value: seq<T>)
      requires Valid() && index < Len() && |value| == ChunkSize()
      modifies data
      ensures data[..] == WriteChunk(old(data[..]), index, chunkSize, value)
    {
      var p := GetMutPtrUnchecked(index);
      var k := 0;
      while k < |value|
        invariant 0 <= k <= |value|
        invariant forall m :: 0 <= m < data.Length ==>
          data[m] == if p.offset <= m < p.offset + k then value[m - p.offset] else old(data[m])
      {
        data[p.offset + k] := value[k];
        k := k + 1;
      }
    }

    /** `set` of the copy tier: the index is checked, then the value's length, and only
        then is anything written; a failed check leaves the buffer as it was. */
    method Set(index: nat, value: seq<T>) returns (r: Outcome)
      requires Valid()
      modifies data
      ensures r.Pass? <==> index < Len() && |value| == ChunkSize()
      ensures index >= Len() ==> r == Fail(IndexOutOfBounds(index, Len()))
      ensures index < Len() && |value| != ChunkSize() ==> r == Fail(ChunkLengthMismatch(|value|, ChunkSize()))
      ensures r.Pass? ==> data[..] == WriteChunk(old(data[..]), index, chunkSize, value)
      ensures r.Fail? ==> data[..] == old(data[..])
    {
      r := Collection.AssertInBounds(Len(), index);
      if r.Fail? {
        return;
      }
      r := Collection.AssertChunkCompatible(ChunkSize(), |value|);
      if r.Fail? {
        return;
      }
      SetUnchecked(index, value);
    }

    // Reference tier: a chunk reference is the range of elements it denotes

    /** `get_unchecked` of the reference tier: a shared reference to chunk `index`. */
    function GetRefUnchecked(index: nat): (p: SlicePtr)
      requires Valid() && index < Len()
      reads data
      ensures p.offset + p.len <= data.Length && p.len == ChunkSize()
      ensures forall k: nat :: InChunk(k, index, chunkSize) <==> p.offset <= k < p.offset + p.len
      ensures p == GetMutPtrUnchecked(index)
      ensures LoadChunk(p) == ReadChunk(data[..], index, chunkSize)
    {
      GetPtrUnchecked(index)
    }

    /** `get_mut_unchecked` of the reference tier: an exclusive reference to chunk `index`. */
    function GetMutUnchecked(index: nat): (p: SlicePtr)
      requires Valid() && index < Len()
      reads data
      ensures p.offset + p.len <= data.Length && p.len == ChunkSize()
      ensures forall k: nat :: InChunk(k, index, chunkSize) <==> p.offset <= k < p.offset + p.len
      ensures p == GetMutPtrUnchecked(index)
      ensures LoadChunk(p) == ReadChunk(data[..], index, chunkSize)
    {
      GetMutPtrUnchecked(index)
    }

    /** `get` of the reference tier: bounds check, then `get_unchecked`. */
    function GetRef(index: nat): (r: Result<SlicePtr>)
      requires Valid()
      reads data
      ensures r.Ok? <==> index < Len()
      ensures r.Ok? ==> r.value == GetRefUnchecked(index)
      ensures r.Err? ==> r.panic == IndexOutOfBounds(index, Len())
    {
      match Collection.AssertInBounds(Len(), index)
      case Fail(p) => Err(p)
      case Pass => Ok(GetRefUnchecked(index))
    }

    /** `get_mut` of the reference tier: bounds check, then `get_mut_unchecked`. */
    function GetMut(index: nat): (r: Result<SlicePtr>)
      requires Valid()
      reads data
      ensures r.Ok? <==> index < Len()
      ensures r.Ok? ==> r.value == GetMutUnchecked(index)
      ensures r.Err? ==> r.panic == IndexOutOfBounds(index, Len())
    {
      match Collection.AssertInBounds(Len(), index)
      case Fail(p) => Err(p)
      case Pass => Ok(GetMutUnchecked(index))
    }
  }
}
