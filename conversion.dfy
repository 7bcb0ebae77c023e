/** Opting in and out: a plain buffer becomes a view (borrowed from `[T]`, or owned from a
    `Box<[T]>` or a `Vec<T>`) and an owned view becomes a plain buffer again. The pointer,
    copy and reference tiers of one shape are all backed by the same bridge, so each pair
    (borrowed/owned/vector, single/chunked) is one method here. */
module Conversion {
  import opened Panics
  import opened CellSlice
  import opened CellChunkSlice
  import ChunkLayout

  /** `assert_chunk_size`: passes exactly when `chunk_size` divides `len`; a zero chunk size
      fails on the remainder itself; otherwise the panic reports `len`, `chunk_size`, and the
      quotient and remainder of their division. */
  function AssertChunkSize(len: nat, chunkSize: nat): (r: Outcome)
    ensures r.Pass? <==> chunkSize > 0 && len % chunkSize == 0
    ensures r.Pass? ==> len == len / chunkSize * chunkSize
    ensures chunkSize == 0 ==> r == Fail(RemainderByZero(len))
    ensures r.Fail? && chunkSize > 0 ==>
      r.panic.ChunkSizeNotDivisor? && r.panic.len == len && r.panic.chunkSize == chunkSize &&
      r.panic.quotient * chunkSize + r.panic.remainder == len && 0 < r.panic.remainder < chunkSize
  {
    if chunkSize == 0 then Fail(RemainderByZero(len))
    else if len % chunkSize != 0 then Fail(ChunkSizeNotDivisor(len, chunkSize, len / chunkSize, len % chunkSize))
    else Pass
  }

  /** Once `assert_chunk_size` has passed, the bridge's own divisibility assertion passes. */
  lemma ChunkSizeCheckSubsumesBridge(len: nat, chunkSize: nat)
    ensures AssertChunkSize(len, chunkSize).Pass? <==> CheckDivisible(len, chunkSize).Pass?
    ensures chunkSize == 0 ==> AssertChunkSize(len, chunkSize) == CheckDivisible(len, chunkSize)
  {
  }

  /** `Vec::into_boxed_slice`: the same elements, in the same order, in an exactly sized
      allocation. */
  method IntoBoxedSlice<T>(v: seq<T>) returns (boxed: array<T>)
    ensures fresh(boxed) && boxed[..] == v
  {
    boxed := new T[|v|](k requires 0 <= k < |v| => v[k]);
  }

  // Single-element views

  /** `as_*_par_slice` on `[T]`: never panics; the view borrows the caller's buffer. */
  method AsParSlice<T>(slice: array<T>) returns (view: CellSlice<T>)
    ensures fresh(view) && view.data == slice && !view.owned && view.Len() == slice.Length
  {
    view := new CellSlice.NewBorrowed(slice);
  }

  /** `into_*_par_slice` on `Box<[T]>`: never panics; the view owns the allocation. */
  method IntoParSlice<T>(boxed: array<T>) returns (view: CellSlice<T>)
    ensures fresh(view) && view.data == boxed && view.owned && view.Len() == boxed.Length
  {
    view := new CellSlice.NewOwned(boxed);
  }

  /** `into_*_par_slice` on `Vec<T>`: through `into_boxed_slice`, same elements in the same
      order. */
  method VecIntoParSlice<T>(v: seq<T>) returns (view: CellSlice<T>)
    ensures fresh(view) && fresh(view.data) && view.owned && view.data[..] == v && view.Len() == |v|
  {
    var boxed := IntoBoxedSlice(v);
    view := IntoParSlice(boxed);
  }

  // Chunked views: `assert_chunk_size` runs before anything is wrapped

  /** `as_*_par_chunk_slice` on `[T]`. */
  method AsParChunkSlice<T(0)>(slice: array<T>, chunkSize: nat) returns (r: Result<CellChunkSlice<T>>)
    ensures r.Ok? <==> AssertChunkSize(slice.Length, chunkSize).Pass?
    ensures r.Err? ==> r.panic == AssertChunkSize(slice.Length, chunkSize).panic
    ensures r.Ok? ==> fresh(r.value) && r.value.Valid() && r.value.data == slice && !r.value.owned
    ensures r.Ok? ==> r.value.ChunkSize() == chunkSize && r.value.NumElements() == slice.Length
                      && r.value.Len() == slice.Length / chunkSize
  {
    var check := AssertChunkSize(slice.Length, chunkSize);
    if check.Fail? {
      return Err(check.panic);
    }
    r := NewBorrowed(slice, chunkSize);
  }

  /** `into_*_par_chunk_slice` on `Box<[T]>`. */
  method IntoParChunkSlice<T(0)>(boxed: array<T>, chunkSize: nat) returns (r: Result<CellChunkSlice<T>>)
    ensures r.Ok? <==> AssertChunkSize(boxed.Length, chunkSize).Pass?
    ensures r.Err? ==> r.panic == AssertChunkSize(boxed.Length, chunkSize).panic
    ensures r.Ok? ==> fresh(r.value) && r.value.Valid() && r.value.data == boxed && r.value.owned
    ensures r.Ok? ==> r.value.ChunkSize() == chunkSize && r.value.NumElements() == boxed.Length
                      && r.value.Len() == boxed.Length / chunkSize
  {
    var check := AssertChunkSize(boxed.Length, chunkSize);
    if check.Fail? {
      return Err(check.panic);
    }
    r := NewOwned(boxed, chunkSize);
  }

  /** `into_*_par_chunk_slice` on `Vec<T>`: the check runs before `into_boxed_slice`. */
  method VecIntoParChunkSlice<T(0)>(v: seq<T>, chunkSize: nat) returns (r: Result<CellChunkSlice<T>>)
    ensures r.Ok? <==> AssertChunkSize(|v|, chunkSize).Pass?
    ensures r.Err? ==> r.panic == AssertChunkSize(|v|, chunkSize).panic
    ensures r.Ok? ==> fresh(r.value) && fresh(r.value.data) && r.value.Valid() && r.value.owned
    ensures r.Ok? ==> r.value.data[..] == v && r.value.ChunkSize() == chunkSize
                      && r.value.NumElements() == |v| && r.value.Len() == |v| / chunkSize
  {
    var check := AssertChunkSize(|v|, chunkSize);
    if check.Fail? {
      return Err(check.panic);
    }
    var boxed := IntoBoxedSlice(v);
    r := IntoParChunkSlice(boxed, chunkSize);
  }

  // Round trips with no writes in between

  /** A vector turned into a single-element view and back is the same vector. */
  method VecRoundTrip<T>(v: seq<T>) returns (w: seq<T>)
    ensures w == v
  {
    var view := VecIntoParSlice(v);
    w := view.IntoVec();
  }

  /** A vector turned into a chunked view and back is the same vector, whenever the
      conversion does not panic. */
  method VecChunkRoundTrip<T(0)>(v: seq<T>, chunkSize: nat) returns (r: Result<seq<T>>)
    ensures r.Ok? <==> chunkSize > 0 && |v| % chunkSize == 0
    ensures r.Ok? ==> r.value == v
    ensures r.Err? ==> r.panic == AssertChunkSize(|v|, chunkSize).panic
  {
    var view := VecIntoParChunkSlice(v, chunkSize);
    if view.Err? {
      return Err(view.panic);
    }
    var w := view.value.IntoVec();
    r := Ok(w);
  }

  /** A box turned into a view and back is the same allocation with the same contents. */
  method BoxRoundTrip<T>(boxed: array<T>) returns (back: array<T>)
    ensures back == boxed && back[..] == old(boxed[..])
  {
    var view := IntoParSlice(boxed);
    back := view.IntoInner();
  }
}
