/** The size contracts every view satisfies, and the two bounds checks all checked
    accessors share. */
module Collection {
  import opened Panics
  import ChunkLayout

  /** Default `is_empty`: a collection is empty exactly when no index passes the bounds
      check. */
  predicate IsEmpty(len: nat)
    ensures IsEmpty(len) <==> len == 0
    ensures IsEmpty(len) <==> forall i: nat :: AssertInBounds(len, i).Fail?
  {
    assert len > 0 ==> AssertInBounds(len, 0).Pass?;
    len == 0
  }

  /** Default `num_elements` of a chunked collection: `len` chunks of `cs` elements, so the
      last chunk ends exactly at the element count. */
  function NumElements(len: nat, cs: nat): (n: nat)
    ensures len == 0 ==> n == 0
    ensures len > 0 ==> ChunkLayout.ChunkEnd(len - 1, cs) == n
    ensures cs > 0 ==> n / cs == len && n % cs == 0
    ensures forall i: nat :: i < len ==> ChunkLayout.ChunkEnd(i, cs) <= n
  {
    forall i: nat | i < len ensures ChunkLayout.ChunkEnd(i, cs) <= len * cs {
      ChunkLayout.ChunkInBounds(i, len, cs);
    }
    ChunkLayout.WholeChunks(len, cs);
    len * cs
  }

  /** `assert_in_bounds`: passes exactly when `index < len`, otherwise panics reporting both
      numbers. */
  function AssertInBounds(len: nat, index: nat): (r: Outcome)
    ensures r.Pass? <==> index < len
    ensures r.Fail? ==> r.panic == IndexOutOfBounds(index, len)
  {
    if index < len then Pass else Fail(IndexOutOfBounds(index, len))
  }

  /** `assert_chunk_compatible`: passes exactly when the value has the chunk's length,
      otherwise panics reporting both lengths. */
  function AssertChunkCompatible(chunkSize: nat, valueLen: nat): (r: Outcome)
    ensures r.Pass? <==> valueLen == chunkSize
    ensures r.Fail? ==> r.panic == ChunkLengthMismatch(valueLen, chunkSize)
  {
    if valueLen == chunkSize then Pass else Fail(ChunkLengthMismatch(valueLen, chunkSize))
  }
}
