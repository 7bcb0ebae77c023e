/** The repository's documented examples and tests, replayed on the model. Threads are
    replaced by interleavings of their writes. */
module Scenarios {
  import opened Panics
  import opened ChunkLayout
  import opened Conversion
  import opened CellSlice
  import opened CellChunkSlice

  /** set(0, 42), set(1, 42), get(0), set(0, 69) on `[0; 5]`: the read sees 42 and the
      buffer ends as `[69, 42, 0, 0, 0]`. */
  method CheckedSetGetSequence() returns (got: Result<int>, final: seq<int>)
    ensures got == Ok(42) && final == [69, 42, 0, 0, 0]
  {
    var view := VecIntoParSlice([0, 0, 0, 0, 0]);
    var r := view.Set(0, 42);
    r := view.Set(1, 42);
    got := view.Get(0);
    r := view.Set(0, 69);
    final := view.IntoVec();
  }

  /** A checked get or set with an out-of-range index panics with both numbers, and the
      failed set leaves `[1, 2, 3]` as it was. */
  method OutOfRangeAccess() returns (got: Result<int>, setResult: Outcome, final: seq<int>)
    ensures got == Err(IndexOutOfBounds(42, 3)) && setResult == Fail(IndexOutOfBounds(69, 3))
    ensures final == [1, 2, 3]
  {
    var view := VecIntoParSlice([1, 2, 3]);
    got := view.Get(42);
    setResult := view.Set(69, 42);
    final := view.IntoVec();
  }

  /** Writing 42 through `get_mut(0)` and 69 through `get_mut_unchecked(1)` on `[0; 5]`
      gives `[42, 69, 0, 0, 0]`. */
  method ReferenceWrites() returns (final: seq<int>)
    ensures final == [42, 69, 0, 0, 0]
  {
    var view := VecIntoParSlice([0, 0, 0, 0, 0]);
    var ref0 := view.GetMut(0);
    view.Store(ref0.value, 42);
    var ref1 := view.GetMutUnchecked(1);
    view.Store(ref1, 69);
    final := view.IntoVec();
  }

  /** Writes through a borrowed view are in the caller's buffer after the view is gone. */
  method BorrowedWritesVisible() returns (final: seq<int>)
    ensures final == [1, 2, 42]
  {
    var v := new int[3](k => k + 1);
    var view := AsParSlice(v);
    view.SetUnchecked(2, 42);
    final := v[..];
  }

  /** Converting seven elements with chunk size 2 panics reporting 7, 2, 3 and 1. */
  method InvalidChunkSize() returns (r: Result<CellChunkSlice<int>>)
    ensures r == Err(ChunkSizeNotDivisor(7, 2, 3, 1))
  {
    var v := new int[7](k => k + 1);
    r := AsParChunkSlice(v, 2);
  }

  /** On `[1, 2, 3, 4]` with chunk size 2: chunk 0 reads `[1, 2]`, writing `[42, 69]` to
      chunk 1 gives `[1, 2, 42, 69]` in the caller's buffer. */
  method ChunkReadThenWrite() returns (read: seq<int>, final: seq<int>)
    ensures read == [1, 2] && final == [1, 2, 42, 69]
  {
    var v := new int[4](k => k + 1);
    var view := AsParChunkSlice(v, 2);
    var chunk := view.value.GetUnchecked(0);
    read := chunk[..];
    view.value.SetUnchecked(1, [42, 69]);
    final := v[..];
  }

  /** The chunk bounds check is against the number of chunks: index 42 fails for 2 chunks,
      the length check fails for a value of length 1, and neither changes `[1, 2, 3, 4]`. */
  method ChunkChecksFail() returns (getResult: Outcome, setResult: Outcome, badValue: Outcome, final: seq<int>)
    ensures getResult == Fail(IndexOutOfBounds(42, 2)) && setResult == Fail(IndexOutOfBounds(69, 2))
    ensures badValue == Fail(ChunkLengthMismatch(1, 2))
    ensures final == [1, 2, 3, 4]
  {
    var v := new int[4](k => k + 1);
    var view := AsParChunkSlice(v, 2);
    var buf := new int[2];
    getResult := view.value.GetInto(42, buf);
    setResult := view.value.Set(69, [42, 42]);
    badValue := view.value.Set(1, [42]);
    final := v[..];
  }

  /** Chunk sets at 0 and 1 with chunk size 2 on `[0; 6]`, a read of chunk 0, and a final
      overwrite of chunk 0 end as `[69, 42, 42, 69, 0, 0]`. */
  method ChunkSetGetSequence() returns (read: seq<int>, final: seq<int>)
    ensures read == [42, 69] && final == [69, 42, 42, 69, 0, 0]
  {
    var r := VecIntoParChunkSlice([0, 0, 0, 0, 0, 0], 2);
    var view := r.value;
    var o := view.Set(0, [42, 69]);
    o := view.Set(1, [42, 69]);
    var buf := new int[2];
    o := view.GetInto(0, buf);
    read := buf[..];
    o := view.Set(0, [69, 42]);
    final := view.IntoVec();
  }

  /** Two writers, one setting indices 0 and 1 to 42 and the other 3 and 4 to 69, leave
      `[42, 42, 0, 69, 69]` in whatever order their writes interleave. */
  lemma TwoWritersOnElements(zs: seq<ChunkWrite<int>>)
    requires IsInterleaving(zs, [ChunkWrite(0, [42]), ChunkWrite(1, [42])],
                                [ChunkWrite(3, [69]), ChunkWrite(4, [69])])
    ensures WritesFit(zs, 5, 1) && ApplyWrites([0, 0, 0, 0, 0], zs, 1) == [42, 42, 0, 69, 69]
    ensures ApplyWrites([0, 0, 0, 0, 0], zs, 1) == [0, 0, 0, 0, 0][0 := 42][1 := 42][3 := 69][4 := 69]
  {
    var xs := [ChunkWrite(0, [42]), ChunkWrite(1, [42])];
    var ys := [ChunkWrite(3, [69]), ChunkWrite(4, [69])];
    InterleavingDeterministic([0, 0, 0, 0, 0], zs, xs, ys, 1);
    // Each unit-chunk write is the element update `s[index := value]`.
    var s := [0, 0, 0, 0, 0];
    ElementWriteIsUnitChunk(s, 0, 42);
    ElementWriteIsUnitChunk(s[0 := 42], 1, 42);
    ElementWriteIsUnitChunk(s[0 := 42][1 := 42], 3, 69);
    ElementWriteIsUnitChunk(s[0 := 42][1 := 42][3 := 69], 4, 69);
  }

  /** Two writers on chunks of size 2 of `[0; 10]`, one writing `[42, 69]` to chunks 0 and
      1 and the other `[69, 42]` to chunks 3 and 4, leave
      `[42, 69, 42, 69, 0, 0, 69, 42, 69, 42]` in whatever order their writes interleave. */
  lemma TwoWritersOnChunks(zs: seq<ChunkWrite<int>>)
    requires IsInterleaving(zs, [ChunkWrite(0, [42, 69]), ChunkWrite(1, [42, 69])],
                                [ChunkWrite(3, [69, 42]), ChunkWrite(4, [69, 42])])
    ensures WritesFit(zs, 10, 2)
    ensures ApplyWrites([0, 0, 0, 0, 0, 0, 0, 0, 0, 0], zs, 2) == [42, 69, 42, 69, 0, 0, 69, 42, 69, 42]
  {
    var s := [0, 0, 0, 0, 0, 0, 0, 0, 0, 0];
    var xs := [ChunkWrite(0, [42, 69]), ChunkWrite(1, [42, 69])];
    var ys := [ChunkWrite(3, [69, 42]), ChunkWrite(4, [69, 42])];
    InterleavingDeterministic(s, zs, xs, ys, 2);
    var a := WriteChunk(s, 0, 2, [42, 69]);
    assert a == [42, 69, 0, 0, 0, 0, 0, 0, 0, 0];
    var b := WriteChunk(a, 1, 2, [42, 69]);
    assert b == [42, 69, 42, 69, 0, 0, 0, 0, 0, 0];
    var c := WriteChunk(b, 3, 2, [69, 42]);
    assert c == [42, 69, 42, 69, 0, 0, 69, 42, 0, 0];
    var d := WriteChunk(c, 4, 2, [69, 42]);
    assert d == [42, 69, 42, 69, 0, 0, 69, 42, 69, 42];
  }
}
