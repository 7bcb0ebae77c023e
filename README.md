# par-slice: a Dafny model of the tiered shared-buffer core

par-slice lets several holders read and write one fixed-length buffer through a shared
handle. Each holder promises to touch only its own indices. The buffer is wrapped by a
storage bridge that comes in two shapes:

- `UnsafeCellSlice`: single elements. Element `i` sits at offset `i`.
- `UnsafeCellChunkSlice`: chunks of `chunk_size` elements. Chunk `i` covers
  `[i * chunk_size, (i + 1) * chunk_size)`.

Either shape can be borrowed from a slice or owned from a `Box<[T]>` or a `Vec<T>`. On top of
the bridge sit three access tiers:

- pointers (`get_ptr`, `get_mut_ptr`);
- copy-in/copy-out accessors (`get`, `set`);
- references (`get`, `get_mut`).

Each checked operation checks its index (and, for chunk values, the value's length) and then
calls its unchecked twin.

This project models the sequential behaviour of that core:

- `panics.dfy`: panics as values carrying the numbers their messages report.
- `collection.dfy`: the size contracts and the shared bounds checks.
- `chunk_layout.dfy`: chunk arithmetic, the sequence functions that specify reading and
  writing one chunk, and the commuting and interleaving lemmas.
- `cell_slice.dfy`, `cell_chunk_slice.dfy`: the two bridges as classes over an `array<T>`,
  with all three tiers.
- `conversion.dfy`: opting in (borrowed, `Box`, `Vec`) and back out.
- `constructor.dfy`, `par_slice.dfy`: the buffer-fill constructors.
- `indexing.dfy`: the `AsUsize` conversions.
- `scenarios.dfy`: the repository's documented examples and tests, replayed on the model.

Modelling choices:

- A pointer or a reference is the address it carries: an offset (`Ptr`) or an offset and a
  length (`SlicePtr`). `*const`/`*mut`/`&`/`&mut` from the same index carry the same address.
- Writing through a pointer or a `&mut` is `Store`; reading through one is `Load`.
- Borrowed and owned views hold the caller's `array` itself. A borrowed view's writes are
  therefore in the caller's buffer once the view is gone. Only an owned view can be turned
  back into a `Box` or `Vec` (`requires owned`), as Rust's types allow.
- The pointer, copy and reference tiers of one shape share one class, since the same bridge
  backs all three. The twelve conversions collapse to six methods:
  {borrowed, `Box`, `Vec`} x {single, chunked}.
- A closure `FnMut() -> T` is a function `gen: nat -> T`: `gen(k)` is what its `k`-th call
  returns. `T::default` is passed in as a value.
- `debug_assert!` conditions of the unchecked operations are preconditions.
- Concurrency becomes sequences of writes. Two writers on disjoint indices are any
  interleaving of their two write sequences (`ChunkLayout.InterleavingDeterministic`).

The model follows the code in three places a reader might not expect:

- A zero chunk size does not reach the divisibility message. `len % 0` panics first, which
  is `Panic.RemainderByZero`.
- The bridge's own constructors check divisibility with a bare `assert_eq!` that reports only
  the remainder (`Panic.AssertEqFailed`). The quotient-and-remainder message comes from
  `assert_chunk_size` in the conversions, which always runs first.
- The older `PointerParSlice` snapshot (`src/unsafe_slice_access.rs`) checks bounds with a bare
  `assert!`, so its panic carries no numbers (`Panic.AssertionFailed`).

## Model

| member | source | states |
|---|---|---|
| Collection.IsEmpty | src/traits/collection.rs:4-7 | empty exactly when `len == 0`, i.e. exactly when every index fails the bounds check (the same default is src/traits/pointer.rs:8-11 and src/unsafe_slice_access.rs:8-11) |
| Collection.NumElements | src/traits/collection.rs:13-16 | zero for no chunks; otherwise where the last chunk ends, every chunk below `len` ends within it, and for a nonzero chunk size it splits into exactly `len` whole chunks |
| Collection.AssertInBounds | src/traits/collection.rs:24-32 | passes iff `index < len`; otherwise the panic reports index and len |
| Collection.AssertChunkCompatible | src/traits/collection.rs:34-42 | passes iff the value's length equals `chunk_size`; otherwise the panic reports both lengths |
| ChunkLayout.ChunkInBounds | src/impls/unsafe_cell_chunk_slice.rs:105-119 | chunk `i` has `chunk_size` elements and, for `i < n`, ends within `n * chunk_size` |
| ChunkLayout.ChunksDisjoint | src/traits/unsafe_index.rs:262-267 | no element lies in two chunks with distinct indices |
| ChunkLayout.ChunksPartition | src/traits/no_ref.rs:279-283 | every element of a buffer of `n * chunk_size` lies in chunk `k / chunk_size`, and that index is below `n` |
| ChunkLayout.ReadChunk | src/traits/no_ref.rs:284-286 | a chunk copy has `chunk_size` elements; element `k` is buffer element `i * chunk_size + k` |
| ChunkLayout.WriteChunk | src/traits/no_ref.rs:290-292 | same length; chunk `i` holds the value, every element outside it is unchanged |
| ChunkLayout.ReadAfterWrite | src/traits/no_ref.rs:302-314 | reading a chunk just written returns the written value |
| ChunkLayout.ReadOtherAfterWrite | src/impls/unsafe_cell_chunk_slice.rs:158-178 | writing chunk `i` leaves every chunk `j != i` as it was |
| ChunkLayout.WriteReadIdentity | src/traits/no_ref.rs:284-295 | writing back the copy of a chunk changes nothing |
| ChunkLayout.OverwriteChunk | src/traits/no_ref.rs:308-314 | of two writes to one chunk, the last wins |
| ChunkLayout.WritesCommute | src/traits/no_ref.rs:336-365 | writes to distinct chunks commute |
| ChunkLayout.ElementWriteIsUnitChunk | src/impls/unsafe_cell_slice.rs:65-76 | a single-element write is a chunk write with chunk size 1 |
| ChunkLayout.InterleavingDeterministic | src/traits/no_ref.rs:73-101 | any interleaving of two writers on disjoint indices ends as if one writer ran after the other |
| CellSlice.CellSlice.NewBorrowed | src/impls/unsafe_cell_slice.rs:24-29 | the view is the caller's buffer itself, not owned, with the buffer's length |
| CellSlice.CellSlice.NewOwned | src/impls/unsafe_cell_slice.rs:31-40 | the view takes over the allocation, owned, with its length |
| CellSlice.CellSlice.IntoInner | src/impls/unsafe_cell_slice.rs:42-49 | the same allocation, with the same length and contents, is handed back |
| CellSlice.CellSlice.IntoVec | src/impls/unsafe_cell_slice.rs:17-22 | the vector holds the buffer's elements in order |
| CellSlice.CellSlice.Len | src/impls/unsafe_cell_slice.rs:52-57 | the buffer's length: the bounds check admits exactly the buffer's indices |
| CellSlice.CellSlice.GetMutPtrUnchecked | src/impls/unsafe_cell_slice.rs:65-76 | for `index < len` (debug assertion) the address of element `index` (`ptr.add(index)`), inside the buffer |
| CellSlice.CellSlice.GetPtrUnchecked | src/impls/unsafe_cell_slice.rs:60-63 | same address as `get_mut_ptr_unchecked` |
| CellSlice.CellSlice.GetPtr | src/traits/pointer.rs:13-22 | panics iff `index >= len`, reporting both; otherwise exactly `get_ptr_unchecked(index)` |
| CellSlice.CellSlice.GetMutPtr | src/traits/pointer.rs:24-33 | panics iff `index >= len`, reporting both; otherwise exactly `get_mut_ptr_unchecked(index)` |
| CellSlice.CellSlice.LegacyGetPtr | src/unsafe_slice_access.rs:13-17 | same pass/fail and pointer as `get_ptr`; the panic carries no numbers |
| CellSlice.CellSlice.LegacyGetMutPtr | src/unsafe_slice_access.rs:19-23 | same pass/fail and pointer as `get_mut_ptr`; the panic carries no numbers |
| CellSlice.CellSlice.LegacyGet | src/unsafe_slice_access.rs:35-44 | same result as the current `get` when in bounds; the panic carries no numbers |
| CellSlice.CellSlice.LegacySet | src/unsafe_slice_access.rs:27-33 | in bounds: only element `index` becomes `value`; out of bounds: panics, buffer unchanged |
| CellSlice.CellSlice.GetUnchecked | src/impls/unsafe_cell_slice.rs:91-100 | a copy of element `index` |
| CellSlice.CellSlice.Get | src/impls/unsafe_cell_slice.rs:80-89 | panics iff `index >= len`, reporting both; otherwise exactly `get_unchecked(index)` (also src/traits/no_ref.rs:157-167) |
| CellSlice.CellSlice.SetUnchecked | src/impls/unsafe_cell_slice.rs:113-122 | element `index` becomes `value`; every other element is unchanged |
| CellSlice.CellSlice.Set | src/impls/unsafe_cell_slice.rs:102-111 | in bounds: exactly `set_unchecked`; out of bounds: panics reporting both numbers, nothing written (also src/traits/no_ref.rs:220-230) |
| CellSlice.CellSlice.GetRefUnchecked | src/impls/unsafe_cell_slice.rs:136-144 | the address of element `index`, the same as the pointer tier's, and reading through it gives that element |
| CellSlice.CellSlice.GetMutUnchecked | src/impls/unsafe_cell_slice.rs:155-162 | the address of element `index`, the same as the pointer tier's, and reading through it gives that element |
| CellSlice.CellSlice.GetRef | src/traits/unsafe_index.rs:157-163 | panics iff `index >= len`; otherwise the same location as `get_unchecked(index)` |
| CellSlice.CellSlice.GetMut | src/traits/unsafe_index.rs:213-221 | panics iff `index >= len`; otherwise the same location as `get_mut_unchecked(index)` |
| CellSlice.CellSlice.DistinctIndicesDistinctLocations | src/traits/unsafe_index.rs:21-22 | distinct indices give distinct locations |
| CellChunkSlice.CheckDivisible | src/impls/unsafe_cell_chunk_slice.rs:31-32 | passes iff `chunk_size > 0` and it divides `len`; zero fails on the remainder, a non-divisor fails the `assert_eq!` with the remainder |
| CellChunkSlice.NewBorrowed | src/impls/unsafe_cell_chunk_slice.rs:28-40 | fails exactly as the divisibility check does; otherwise views the caller's buffer with `len = slice.len() / chunk_size` |
| CellChunkSlice.NewOwned | src/impls/unsafe_cell_chunk_slice.rs:42-59 | fails exactly as the divisibility check does; otherwise owns the allocation with `len = slice.len() / chunk_size` |
| CellChunkSlice.CellChunkSlice.Wrap | src/impls/unsafe_cell_chunk_slice.rs:34-38 | after a passed check the partition is exact: `data.Length == len * chunk_size`, `chunk_size > 0` |
| CellChunkSlice.CellChunkSlice.IntoInner | src/impls/unsafe_cell_chunk_slice.rs:61-68 | the same allocation and contents are handed back |
| CellChunkSlice.CellChunkSlice.IntoVec | src/impls/unsafe_cell_chunk_slice.rs:21-26 | the vector holds the buffer's elements in order |
| CellChunkSlice.CellChunkSlice.Len | src/impls/unsafe_cell_chunk_slice.rs:71-77 | the number of chunks; for a valid view `len * chunk_size` is the buffer's length |
| CellChunkSlice.CellChunkSlice.ChunkSize | src/impls/unsafe_cell_chunk_slice.rs:80-86 | for a valid view nonzero and a divisor of the buffer's length |
| CellChunkSlice.CellChunkSlice.NumElements | src/impls/unsafe_cell_chunk_slice.rs:88-91 | the buffer's own length equals the default `len * chunk_size` |
| CellChunkSlice.CellChunkSlice.NumChunks | src/impls/unsafe_cell_chunk_slice.rs:93-96 | equals `len`, and `num_chunks * chunk_size == num_elements` |
| CellChunkSlice.CellChunkSlice.GetMutPtrUnchecked | src/impls/unsafe_cell_chunk_slice.rs:105-119 | a fat pointer of length `chunk_size`, inside the buffer, covering exactly the elements of chunk `index` |
| CellChunkSlice.CellChunkSlice.GetPtrUnchecked | src/impls/unsafe_cell_chunk_slice.rs:100-103 | same fat pointer as `get_mut_ptr_unchecked` |
| CellChunkSlice.CellChunkSlice.GetPtr | src/traits/pointer.rs:13-22 | panics iff `index >=` number of chunks, reporting both; otherwise `get_ptr_unchecked(index)` |
| CellChunkSlice.CellChunkSlice.GetMutPtr | src/traits/pointer.rs:24-33 | panics iff `index >=` number of chunks, reporting both; otherwise `get_mut_ptr_unchecked(index)` |
| CellChunkSlice.CellChunkSlice.DistinctChunksDisjoint | src/traits/unsafe_index.rs:263-264 | pointers to distinct chunks cover non-overlapping ranges |
| CellChunkSlice.CellChunkSlice.GetUncheckedInto | src/impls/unsafe_cell_chunk_slice.rs:141-150 | the copy loop leaves `out` equal to chunk `index` |
| CellChunkSlice.CellChunkSlice.GetUnchecked | src/impls/unsafe_cell_chunk_slice.rs:130-156 | a fresh buffer equal to elements `[i*cs, (i+1)*cs)`; the view is unchanged |
| CellChunkSlice.CellChunkSlice.GetInto | src/traits/no_ref.rs:427-438 | index checked first, then `out.len()`; the index error wins; on success `out` is the chunk, on failure `out` is unchanged |
| CellChunkSlice.CellChunkSlice.SetUnchecked | src/impls/unsafe_cell_chunk_slice.rs:158-178 | element `i*cs+k` becomes `value[k]`; every element outside chunk `i` is unchanged |
| CellChunkSlice.CellChunkSlice.Set | src/traits/no_ref.rs:498-510 | index checked, then value length, before any write; on failure the buffer is unchanged |
| CellChunkSlice.CellChunkSlice.GetRefUnchecked | src/impls/unsafe_cell_chunk_slice.rs:182-189 | a reference of length `chunk_size` covering exactly the elements of chunk `index`, the same range as the pointer tier's, holding that chunk's contents |
| CellChunkSlice.CellChunkSlice.GetMutUnchecked | src/impls/unsafe_cell_chunk_slice.rs:191-198 | an exclusive reference of length `chunk_size` covering exactly the elements of chunk `index`, the same range as the pointer tier's, holding that chunk's contents |
| CellChunkSlice.CellChunkSlice.GetRef | src/traits/unsafe_index.rs:157-163 | panics iff `index >=` number of chunks; otherwise `get_unchecked(index)` |
| CellChunkSlice.CellChunkSlice.GetMut | src/traits/unsafe_index.rs:213-221 | panics iff `index >=` number of chunks; otherwise `get_mut_unchecked(index)` |
| Conversion.AssertChunkSize | src/impls/conversion.rs:3-14 | passes iff `chunk_size` divides `len` (zero fails on `%`); the panic reports len, chunk_size and a quotient and remainder with `q*cs + r == len`, `0 < r < cs` |
| Conversion.ChunkSizeCheckSubsumesBridge | src/impls/conversion.rs:32-36 | after `assert_chunk_size` passes, the bridge's own check passes too |
| Conversion.IntoBoxedSlice | src/impls/conversion.rs:99-102 | a fresh allocation with the same elements in the same order |
| Conversion.AsParSlice | src/impls/conversion.rs:17-30 | never panics; the view borrows the buffer and has its length |
| Conversion.IntoParSlice | src/impls/conversion.rs:55-68 | never panics; the view owns the box and has its length |
| Conversion.VecIntoParSlice | src/impls/conversion.rs:99-112 | never panics; owned view over the same elements in order |
| Conversion.AsParChunkSlice | src/impls/conversion.rs:32-51 | panics exactly as `assert_chunk_size` does; otherwise `chunk_size` as given, `num_elements == n`, `len == n / cs` |
| Conversion.IntoParChunkSlice | src/impls/conversion.rs:70-95 | as above, for an owned box |
| Conversion.VecIntoParChunkSlice | src/impls/conversion.rs:114-142 | check before `into_boxed_slice`; as above, over the vector's elements in order |
| Conversion.VecRoundTrip | src/traits/conversion.rs:295-298 | vector into a view and back is the same vector |
| Conversion.VecChunkRoundTrip | src/traits/conversion.rs:285-298 | chunked round trip succeeds iff `chunk_size` divides the length, and then returns the same vector |
| Conversion.BoxRoundTrip | src/impls/unsafe_cell_slice.rs:10-15 | box into a view and back is the same allocation with the same contents |
| Constructor.NewBoxedSliceWith | src/impls/constructor/mod.rs:10-17 | `len` fresh slots; slot `k` holds the closure's `k`-th result |
| Constructor.NewBoxedSliceWithValue | src/impls/constructor/mod.rs:19-22 | `len` elements, all equal to `value` |
| Constructor.NewBoxedSlice | src/impls/constructor/mod.rs:24-27 | `len` default values |
| ParSlice.SliceWith | src/constructor.rs:29-39 | fresh owned view over a fresh buffer of `len` elements, slot `k` the closure's `k`-th result |
| ParSlice.SliceWithValue | src/constructor.rs:17-27 | fresh owned view over a fresh buffer of `len` clones of `value` |
| ParSlice.NewSlice | src/constructor.rs:10-15 | fresh owned view over a fresh buffer of `len` default values |
| ParSlice.ChunkSliceWith | src/constructor.rs:63-75 | `assert_chunk_size` first; then a fresh view over a fresh buffer of `len / chunk_size` chunks over the closure's results |
| ParSlice.ChunkSliceWithValue | src/constructor.rs:49-61 | `assert_chunk_size` first; then a fresh view over a fresh buffer of `len / chunk_size` chunks of clones |
| ParSlice.NewChunkSlice | src/constructor.rs:41-47 | `assert_chunk_size` first; then a fresh view over a fresh buffer of `len / chunk_size` chunks of defaults |
| Indexing.UsizeAsUsize | src/impls/indexing.rs:3-8 | the identity |
| Indexing.U8AsUsize | src/impls/indexing.rs:10-15 | a `usize` on every target, same value |
| Indexing.U16AsUsize | src/impls/indexing.rs:17-22 | a `usize` on every target, same value |
| Indexing.U32AsUsize | src/impls/indexing.rs:24-30 | on 32- and 64-bit targets, a `usize` with the same value |
| Indexing.U64AsUsize | src/impls/indexing.rs:32-38 | on 64-bit targets, a `usize` with the same value |
| Indexing.AsUsizeInjective | src/traits/indexing.rs:6 | `x != y` iff `as_usize(x) != as_usize(y)` for every impl |
| Scenarios.CheckedSetGetSequence | src/traits/no_ref.rs:39-51 | set(0,42), set(1,42), get(0) = 42, set(0,69) on `[0;5]` ends `[69,42,0,0,0]` |
| Scenarios.OutOfRangeAccess | tests/owned_data_race_slice.rs:32-50 | get(42) and set(69, _) on a 3-element view panic with those numbers; the buffer stays `[1,2,3]` |
| Scenarios.ReferenceWrites | src/traits/unsafe_index.rs:44-56 | 42 via `get_mut(0)` and 69 via `get_mut_unchecked(1)` give `[42,69,0,0,0]` |
| Scenarios.BorrowedWritesVisible | tests/borrowed_data_race_slice.rs:8-21 | a write through a borrowed view is in the caller's buffer afterwards |
| Scenarios.InvalidChunkSize | tests/borrowed_no_ref_chunk_slice.rs:4-12 | seven elements with chunk size 2 panic reporting 7, 2, 3, 1 |
| Scenarios.ChunkReadThenWrite | tests/borrowed_data_race_chunk_slice.rs:18-31 | chunk 0 of `[1,2,3,4]` reads `[1,2]`; writing `[42,69]` to chunk 1 gives `[1,2,42,69]` |
| Scenarios.ChunkChecksFail | tests/borrowed_no_ref_chunk_slice.rs:56-96 | index 42 and 69 fail against 2 chunks, a length-1 value fails the length check, and the buffer is unchanged |
| Scenarios.ChunkSetGetSequence | src/traits/no_ref.rs:302-314 | chunk sets with a read and an overwrite on `[0;6]` end `[69,42,42,69,0,0]` |
| Scenarios.TwoWritersOnElements | src/traits/no_ref.rs:75-101 | every interleaving of {0,1}<-42 and {3,4}<-69 on `[0;5]` gives `[42,42,0,69,69]`, the four element updates applied one after another |
| Scenarios.TwoWritersOnChunks | src/traits/no_ref.rs:338-365 | every interleaving of the two chunk writers on `[0;10]` gives `[42,69,42,69,0,0,69,42,69,42]` |

## Left out

- Concurrency itself (`Sync` impls, threads, `rayon`) is left out. Disjoint-index threads are
  modelled as interleavings of sequential writes. Data races and the aliasing rules for
  references are undefined behaviour and have nothing to state sequentially.
- Raw-memory mechanics are left out: `Box::into_raw`/`from_raw`, the `UnsafeCell`
  reinterpretation, `MaybeUninit`/`assume_init`, and the byte-offset debug assertion against
  `isize::MAX`. Uninitialised slots are Dafny's default values until written.
- Integer widths of `usize` are not modelled for lengths and offsets; they are unbounded
  naturals. `index * chunk_size` and the default `len * chunk_size` cannot overflow here. The
  `AsUsize` conversions do model the target's width.
- The older snapshot's reference tier (src/unsafe_slice_access.rs:69-107) is not written out
  again. Its `get`/`get_mut` return the address given by `LegacyGetPtr`/`LegacyGetMutPtr`, and
  the `_unchecked` ones the address given by `GetPtrUnchecked`/`GetMutPtrUnchecked`.
- The older snapshot's copy accessors `get_unchecked`/`set_unchecked` (src/unsafe_slice_access.rs:47-63)
  dereference `get_ptr_unchecked`/`get_mut_ptr_unchecked` exactly as the current ones do, so they
  are `CellSlice.CellSlice.GetUnchecked` and `SetUnchecked` and are not written out again.
- The older `PointerParSlice for UnsafeCell<[T]>` (src/unsafe_cell_slice.rs) is the same `len`
  and element offset as `CellSlice.CellSlice.Len` and `GetMutPtrUnchecked`, so it is not
  modelled separately.
- The copy tier's checked chunk `get` that returns a `Box<[T]>` is declared without a body
  in the trait, and the bridge implements only `get_unchecked`. The model has that
  `GetUnchecked` and the out-parameter `get` of the no-reference tier (`GetInto`).
- The per-tier constructor files under src/impls/constructor/ are not modelled. Each is
  one expression that composes the fill helpers with a conversion, and they pass an
  `FnMut(usize)` closure where the helpers take `FnMut()`.
- `IndexWrapper` forwarding, `Debug` derives and panic message text are not modelled. Panics
  carry their numbers only.
- Constructor.NewBoxedSliceWith: the closure is a pure function of the call count. A closure
  whose results depend on outside state is captured only through that sequence of results.
