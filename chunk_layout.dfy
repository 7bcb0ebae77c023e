/** Chunk arithmetic of the chunked views: chunk `i` of a buffer cut into chunks of `cs`
    elements covers the element indices `[i * cs, (i + 1) * cs)`. The functions on sequences
    below are the specification of reading and writing one chunk; the chunked storage
    bridge is proved against them. */
module ChunkLayout {

  /** Element offset of the first element of chunk `i`. */
  function ChunkStart(i: nat, cs: nat): nat { i * cs }

  /** One past the element offset of the last element of chunk `i`. */
  function ChunkEnd(i: nat, cs: nat): nat { (i + 1) * cs }

  predicate InChunk(k: nat, i: nat, cs: nat) { ChunkStart(i, cs) <= k < ChunkEnd(i, cs) }

  lemma {:induction false} MulMonotone(a: nat, b: nat, c: nat)
    requires a <= b
    ensures a * c <= b * c
  {
    assert b * c == a * c + (b - a) * c;
  }

  /** A chunk has exactly `cs` elements and, when `i` is below the number of chunks `n`,
      it lies inside a buffer of `n * cs` elements. */
  lemma ChunkInBounds(i: nat, n: nat, cs: nat)
    requires i < n
    ensures ChunkStart(i, cs) + cs == ChunkEnd(i, cs) <= n * cs
  {
    MulMonotone(i + 1, n, cs);
  }

  /** Chunks at distinct indices never share an element. */
  lemma ChunksDisjoint(i: nat, j: nat, cs: nat, k: nat)
    requires i != j
    ensures !(InChunk(k, i, cs) && InChunk(k, j, cs))
  {
    if i < j {
      MulMonotone(i + 1, j, cs);
    } else {
      MulMonotone(j + 1, i, cs);
    }
  }

  /** The chunks partition the buffer exactly: every element of a buffer of `n * cs`
      elements lies in chunk `k / cs`, and that chunk index is below `n`. */
  lemma ChunksPartition(n: nat, cs: nat, k: nat)
    requires cs > 0 && k < n * cs
    ensures k / cs < n && InChunk(k, k / cs, cs)
  {
    assert k == (k / cs) * cs + k % cs;
    if k / cs >= n {
      MulMonotone(n, k / cs, cs);
      assert false;
    }
  }

  /** A buffer of `n` whole chunks has exactly `n` chunks: dividing its length by the chunk
      size leaves no remainder. */
  lemma WholeChunks(n: nat, cs: nat)
    ensures cs > 0 ==> (n * cs) / cs == n && (n * cs) % cs == 0
  {
    if cs > 0 {
      var q, r := (n * cs) / cs, (n * cs) % cs;
      assert n * cs == q * cs + r && 0 <= r < cs;
      if q < n {
        MulMonotone(q + 1, n, cs);
        assert false;
      } else if q > n {
        MulMonotone(n + 1, q, cs);
        assert false;
      }
    }
  }

  /** Bitwise copy of chunk `i` of `s`. */
  function ReadChunk<T>(s: seq<T>, i: nat, cs: nat): (c: seq<T>)
    requires ChunkEnd(i, cs) <= |s|
    ensures |c| == cs
    ensures forall k :: 0 <= k < cs ==> c[k] == s[ChunkStart(i, cs) + k]
  {
    s[ChunkStart(i, cs)..ChunkEnd(i, cs)]
  }

  /** `s` with chunk `i` replaced by `v`. */
  function WriteChunk<T>(s: seq<T>, i: nat, cs: nat, v: seq<T>): (r: seq<T>)
    requires ChunkEnd(i, cs) <= |s| && |v| == cs
    ensures |r| == |s|
    ensures forall k :: 0 <= k < |s| ==>
      r[k] == if InChunk(k, i, cs) then v[k - ChunkStart(i, cs)] else s[k]
  {
    s[..ChunkStart(i, cs)] + v + s[ChunkEnd(i, cs)..]
  }

  /** Reading a chunk just written gives back the written value. */
  lemma ReadAfterWrite<T>(s: seq<T>, i: nat, cs: nat, v: seq<T>)
    requires ChunkEnd(i, cs) <= |s| && |v| == cs
    ensures ReadChunk(WriteChunk(s, i, cs, v), i, cs) == v
  {
    var r := ReadChunk(WriteChunk(s, i, cs, v), i, cs);
    forall k | 0 <= k < cs ensures r[k] == v[k] {
      assert InChunk(ChunkStart(i, cs) + k, i, cs);
    }
  }

  /** Writing chunk `i` leaves every other chunk as it was. */
  lemma ReadOtherAfterWrite<T>(s: seq<T>, i: nat, j: nat, cs: nat, v: seq<T>)
    requires i != j && ChunkEnd(i, cs) <= |s| && ChunkEnd(j, cs) <= |s| && |v| == cs
    ensures ReadChunk(WriteChunk(s, i, cs, v), j, cs) == ReadChunk(s, j, cs)
  {
    var w := WriteChunk(s, i, cs, v);
    forall k | 0 <= k < cs ensures ReadChunk(w, j, cs)[k] == ReadChunk(s, j, cs)[k] {
      assert InChunk(ChunkStart(j, cs) + k, j, cs);
      ChunksDisjoint(i, j, cs, ChunkStart(j, cs) + k);
    }
  }

  /** Writing back the chunk just read changes nothing. */
  lemma WriteReadIdentity<T>(s: seq<T>, i: nat, cs: nat)
    requires ChunkEnd(i, cs) <= |s|
    ensures WriteChunk(s, i, cs, ReadChunk(s, i, cs)) == s
  {
    var w := WriteChunk(s, i, cs, ReadChunk(s, i, cs));
    forall k | 0 <= k < |s| ensures w[k] == s[k] {
      if InChunk(k, i, cs) {
        assert ReadChunk(s, i, cs)[k - ChunkStart(i, cs)] == s[k];
      }
    }
  }

  /** The last of two writes to the same chunk wins. */
  lemma OverwriteChunk<T>(s: seq<T>, i: nat, cs: nat, a: seq<T>, b: seq<T>)
    requires ChunkEnd(i, cs) <= |s| && |a| == cs && |b| == cs
    ensures WriteChunk(WriteChunk(s, i, cs, a), i, cs, b) == WriteChunk(s, i, cs, b)
  {
    var l := WriteChunk(WriteChunk(s, i, cs, a), i, cs, b);
    var r := WriteChunk(s, i, cs, b);
    forall k | 0 <= k < |s| ensures l[k] == r[k] { }
  }

  /** Writes to distinct chunks commute. */
  lemma WritesCommute<T>(s: seq<T>, i: nat, j: nat, cs: nat, a: seq<T>, b: seq<T>)
    requires i != j && ChunkEnd(i, cs) <= |s| && ChunkEnd(j, cs) <= |s| && |a| == cs && |b| == cs
    ensures WriteChunk(WriteChunk(s, i, cs, a), j, cs, b) == WriteChunk(WriteChunk(s, j, cs, b), i, cs, a)
  {
    var l := WriteChunk(WriteChunk(s, i, cs, a), j, cs, b);
    var r := WriteChunk(WriteChunk(s, j, cs, b), i, cs, a);
    forall k | 0 <= k < |s| ensures l[k] == r[k] {
      ChunksDisjoint(i, j, cs, k);
    }
  }

  /** A single-element write is the write of a chunk of size one. */
  lemma ElementWriteIsUnitChunk<T>(s: seq<T>, i: nat, v: T)
    requires i < |s|
    ensures ChunkEnd(i, 1) <= |s| && s[i := v] == WriteChunk(s, i, 1, [v])
  {
    var w := WriteChunk(s, i, 1, [v]);
    forall k | 0 <= k < |s| ensures w[k] == s[i := v][k] { }
  }

  // A sequence of chunk writes, as one thread issues them.

  datatype ChunkWrite<T> = ChunkWrite(index: nat, value: seq<T>)

  /** Every write in `ws` targets a chunk inside a buffer of `len` elements and carries
      exactly `cs` values. */
  predicate WritesFit<T>(ws: seq<ChunkWrite<T>>, len: nat, cs: nat)
  {
    forall k :: 0 <= k < |ws| ==> ChunkEnd(ws[k].index, cs) <= len && |ws[k].value| == cs
  }

  /** `s` after the writes of `ws`, first to last. */
  function ApplyWrites<T>(s: seq<T>, ws: seq<ChunkWrite<T>>, cs: nat): (r: seq<T>)
    requires WritesFit(ws, |s|, cs)
    ensures |r| == |s|
    decreases |ws|
  {
    if ws == [] then s
    else ApplyWrites(WriteChunk(s, ws[0].index, cs, ws[0].value), ws[1..], cs)
  }

  /** No chunk index is written both by `xs` and by `ys`. */
  predicate IndicesDisjoint<T>(xs: seq<ChunkWrite<T>>, ys: seq<ChunkWrite<T>>)
  {
    forall a, b :: 0 <= a < |xs| && 0 <= b < |ys| ==> xs[a].index != ys[b].index
  }

  /** `zs` is some interleaving of `xs` and `ys` that keeps the order within each. */
  ghost predicate IsInterleaving<T>(zs: seq<ChunkWrite<T>>, xs: seq<ChunkWrite<T>>, ys: seq<ChunkWrite<T>>)
    decreases |zs|
  {
    if zs == [] then xs == [] && ys == []
    else
      (xs != [] && zs[0] == xs[0] && IsInterleaving(zs[1..], xs[1..], ys)) ||
      (ys != [] && zs[0] == ys[0] && IsInterleaving(zs[1..], xs, ys[1..]))
  }

  /** Every write of an interleaving comes from one of the two writers, so it fits the
      buffer when theirs do. */
  lemma {:induction false} InterleavingFits<T>(zs: seq<ChunkWrite<T>>, xs: seq<ChunkWrite<T>>,
                                               ys: seq<ChunkWrite<T>>, len: nat, cs: nat)
    requires IsInterleaving(zs, xs, ys) && WritesFit(xs, len, cs) && WritesFit(ys, len, cs)
    ensures WritesFit(zs, len, cs)
    decreases |zs|
  {
    if zs != [] {
      if xs != [] && zs[0] == xs[0] && IsInterleaving(zs[1..], xs[1..], ys) {
        InterleavingFits(zs[1..], xs[1..], ys, len, cs);
      } else {
        InterleavingFits(zs[1..], xs, ys[1..], len, cs);
      }
      assert forall k :: 1 <= k < |zs| ==> zs[k] == zs[1..][k - 1];
    }
  }

  /** A write to a chunk that none of `xs` touches can be moved past all of them. */
  lemma {:induction false} WritePastWrites<T>(s: seq<T>, w: ChunkWrite<T>, xs: seq<ChunkWrite<T>>, cs: nat)
    requires ChunkEnd(w.index, cs) <= |s| && |w.value| == cs && WritesFit(xs, |s|, cs)
    requires forall a :: 0 <= a < |xs| ==> xs[a].index != w.index
    ensures ApplyWrites(WriteChunk(s, w.index, cs, w.value), xs, cs)
         == WriteChunk(ApplyWrites(s, xs, cs), w.index, cs, w.value)
    decreases |xs|
  {
    if xs != [] {
      var x := xs[0];
      WritesCommute(s, w.index, x.index, cs, w.value, x.value);
      WritePastWrites(WriteChunk(s, x.index, cs, x.value), w, xs[1..], cs);
    }
  }

  /** Two writers on disjoint chunk indices: whatever the interleaving of their writes, the
      buffer ends as if the first writer ran to completion before the second. */
  lemma {:induction false} InterleavingDeterministic<T>(s: seq<T>, zs: seq<ChunkWrite<T>>,
                                                        xs: seq<ChunkWrite<T>>, ys: seq<ChunkWrite<T>>, cs: nat)
    requires WritesFit(xs, |s|, cs) && WritesFit(ys, |s|, cs)
    requires IsInterleaving(zs, xs, ys) && IndicesDisjoint(xs, ys)
    ensures WritesFit(zs, |s|, cs)
    ensures ApplyWrites(s, zs, cs) == ApplyWrites(ApplyWrites(s, xs, cs), ys, cs)
    decreases |zs|
  {
    InterleavingFits(zs, xs, ys, |s|, cs);
    if zs == [] {
    } else if xs != [] && zs[0] == xs[0] && IsInterleaving(zs[1..], xs[1..], ys) {
      var s' := WriteChunk(s, xs[0].index, cs, xs[0].value);
      InterleavingDeterministic(s', zs[1..], xs[1..], ys, cs);
    } else {
      var y := ys[0];
      var s' := WriteChunk(s, y.index, cs, y.value);
      InterleavingDeterministic(s', zs[1..], xs, ys[1..], cs);
      WritePastWrites(s, y, xs, cs);
    }
  }
}
