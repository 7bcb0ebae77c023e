/** The `ParSlice` constructors: fill a fresh buffer, then wrap it as an owned view. The
    pointer, copy and reference variants of each constructor fill and wrap identically, so
    each is one method here. Chunked variants run `assert_chunk_size` before allocating. */
module ParSlice {
  import opened Panics
  import Constructor
  import Conversion
  import opened CellSlice
  import opened CellChunkSlice

  /** `*_par_slice_with`: slot `k` of the view holds the `k`-th result of the closure. */
  method SliceWith<T(0)>(gen: nat -> T, len: nat) returns (view: CellSlice<T>)
    ensures fresh(view) && fresh(view.data) && view.owned && view.Len() == len
    ensures forall k :: 0 <= k < len ==> view.data[k] == gen(k)
  {
    var boxed := Constructor.NewBoxedSliceWith(len, gen);
    view := Conversion.IntoParSlice(boxed);
  }

  /** `*_par_slice_with_value`: `len` clones of `value`. */
  method SliceWithValue<T(0)>(value: T, len: nat) returns (view: CellSlice<T>)
    ensures fresh(view) && fresh(view.data) && view.owned && view.data[..] == seq(len, _ => value)
  {
    var boxed := Constructor.NewBoxedSliceWithValue(len, value);
    view := Conversion.IntoParSlice(boxed);
  }

  /** `new_*_par_slice`: `*_par_slice_with(T::default, len)`. */
  method NewSlice<T(0)>(dflt: T, len: nat) returns (view: CellSlice<T>)
    ensures fresh(view) && fresh(view.data) && view.owned && view.data[..] == seq(len, _ => dflt)
  {
    view := SliceWith(_ => dflt, len);
    assert view.data[..] == seq(len, _ => dflt);
  }

  /** `*_par_chunk_slice_with`: checks the chunk size first; on success slot `k` holds the
      `k`-th result of the closure and the view has `len / chunk_size` chunks. */
  method ChunkSliceWith<T(0)>(gen: nat -> T, len: nat, chunkSize: nat) returns (r: Result<CellChunkSlice<T>>)
    ensures r.Ok? <==> Conversion.AssertChunkSize(len, chunkSize).Pass?
    ensures r.Err? ==> r.panic == Conversion.AssertChunkSize(len, chunkSize).panic
    ensures r.Ok? ==> fresh(r.value) && fresh(r.value.data) && r.value.Valid() && r.value.owned && r.value.ChunkSize() == chunkSize
    ensures r.Ok? ==> r.value.NumElements() == len && r.value.Len() == len / chunkSize
    ensures r.Ok? ==> forall k :: 0 <= k < len ==> r.value.data[k] == gen(k)
  {
    var check := Conversion.AssertChunkSize(len, chunkSize);
    if check.Fail? {
      return Err(check.panic);
    }
    var boxed := Constructor.NewBoxedSliceWith(len, gen);
    r := Conversion.IntoParChunkSlice(boxed, chunkSize);
  }

  /** `*_par_chunk_slice_with_value`: checks the chunk size first, then fills `len` clones. */
  method ChunkSliceWithValue<T(0)>(value: T, len: nat, chunkSize: nat) returns (r: Result<CellChunkSlice<T>>)
    ensures r.Ok? <==> Conversion.AssertChunkSize(len, chunkSize).Pass?
    ensures r.Err? ==> r.panic == Conversion.AssertChunkSize(len, chunkSize).panic
    ensures r.Ok? ==> fresh(r.value) && fresh(r.value.data) && r.value.Valid() && r.value.owned && r.value.ChunkSize() == chunkSize
    ensures r.Ok? ==> r.value.Len() == len / chunkSize && r.value.data[..] == seq(len, _ => value)
  {
    var check := Conversion.AssertChunkSize(len, chunkSize);
    if check.Fail? {
      return Err(check.panic);
    }
    var boxed := Constructor.NewBoxedSliceWithValue(len, value);
    r := Conversion.IntoParChunkSlice(boxed, chunkSize);
  }

  /** `new_*_par_chunk_slice`: `*_par_chunk_slice_with(T::default, len, chunk_size)`. */
  method NewChunkSlice<T(0)>(dflt: T, len: nat, chunkSize: nat) returns (r: Result<CellChunkSlice<T>>)
    ensures r.Ok? <==> Conversion.AssertChunkSize(len, chunkSize).Pass?
    ensures r.Err? ==> r.panic == Conversion.AssertChunkSize(len, chunkSize).panic
    ensures r.Ok? ==> fresh(r.value) && fresh(r.value.data) && r.value.Valid() && r.value.owned && r.value.ChunkSize() == chunkSize
    ensures r.Ok? ==> r.value.Len() == len / chunkSize && r.value.data[..] == seq(len, _ => dflt)
  {
    r := ChunkSliceWith(_ => dflt, len, chunkSize);
    if r.Ok? {
      assert r.value.data[..] == seq(len, _ => dflt);
    }
  }
}
