/**
 * The work partitioner `splitter` (bee.py): `num_chunks` contiguous slices of a sequence
 * whose sizes are the quotient or the quotient plus one. A dict argument is split as the
 * sequence of its key/value pairs, so `seq<T>` covers every case the source accepts.
 */
module Splitter {
  import opened Wrappers
  import opened Seqs

  /** `divmod(len(group), 0)` raises ZeroDivisionError. */
  datatype SplitError = ZeroDivision

  function Min(a: nat, b: nat): nat { if a <= b then a else b }

  /** Where chunk `i` begins: the sizes of the chunks before it, summed one chunk at a time. */
  function Bound(len: nat, n: nat, i: nat): nat
    requires n > 0
  {
    if i == 0 then 0 else Bound(len, n, i - 1) + len / n + (if i - 1 < len % n then 1 else 0)
  }

  /** The bound is the source's `i*quotient + min(i, remainder)`. */
  lemma {:induction false} BoundFormula(len: nat, n: nat, i: nat)
    requires n > 0
    ensures Bound(len, n, i) == i * (len / n) + Min(i, len % n)
  {
    if i > 0 {
      BoundFormula(len, n, i - 1);
      assert i * (len / n) == (i - 1) * (len / n) + len / n;
    }
  }

  lemma {:induction false} BoundMonotone(len: nat, n: nat, i: nat, j: nat)
    requires n > 0 && i <= j
    ensures Bound(len, n, i) <= Bound(len, n, j)
    decreases j - i
  {
    if i < j {
      BoundMonotone(len, n, i, j - 1);
      BoundStep(len, n, j - 1);
    }
  }

  /** Each chunk has a non-negative size. */
  lemma BoundStep(len: nat, n: nat, i: nat)
    requires n > 0
    ensures Bound(len, n, i) <= Bound(len, n, i + 1)
  {
    var q: nat := len / n;
    assert Bound(len, n, i + 1) == Bound(len, n, i) + q + (if i < len % n then 1 else 0);
  }

  /** The first chunk starts at 0 and the last one ends at `len(group)`. */
  lemma BoundEnds(len: nat, n: nat)
    requires n > 0
    ensures Bound(len, n, 0) == 0 && Bound(len, n, n) == len
  {
    BoundFormula(len, n, n);
    assert len % n < n;
  }

  lemma BoundWithin(len: nat, n: nat, i: nat)
    requires n > 0 && i <= n
    ensures Bound(len, n, i) <= len
  {
    BoundMonotone(len, n, i, n);
    BoundEnds(len, n);
  }

  /** Chunk `i` of the source: `group[lower:upper]` with `upper` the next chunk's `lower`. */
  function Chunk<T>(group: seq<T>, n: nat, i: nat): seq<T>
    requires 0 < n && i < n
  {
    BoundWithin(|group|, n, i + 1);
    BoundMonotone(|group|, n, i, i + 1);
    group[Bound(|group|, n, i)..Bound(|group|, n, i + 1)]
  }

  /** Everything the generator yields for a positive `num_chunks`, in order. */
  function Chunks<T>(group: seq<T>, n: nat): (r: seq<seq<T>>)
    requires n > 0
    ensures |r| == n
  {
    seq(n, i requires 0 <= i < n => Chunk(group, n, i))
  }

  /** The generator as a loop that collects the slices it yields. */
  method Split<T>(group: seq<T>, numChunks: int) returns (r: Result<seq<seq<T>>, SplitError>)
    ensures r.Err? <==> numChunks == 0
    ensures numChunks < 0 ==> r == Ok([])
    ensures numChunks > 0 ==> r == Ok(Chunks(group, numChunks))
  {
    if numChunks == 0 {
      return Err(ZeroDivision);
    }
    if numChunks < 0 {
      // range(num_chunks) is empty: nothing is yielded.
      return Ok([]);
    }
    var quotient, remainder := |group| / numChunks, |group| % numChunks;
    var chunks: seq<seq<T>> := [];
    for i := 0 to numChunks
      invariant |chunks| == i
      invariant forall k :: 0 <= k < i ==> chunks[k] == Chunk(group, numChunks, k)
    {
      var lower := i * quotient + Min(i, remainder);
      var upper := (i + 1) * quotient + Min(i + 1, remainder);
      BoundFormula(|group|, numChunks, i);
      BoundFormula(|group|, numChunks, i + 1);
      BoundWithin(|group|, numChunks, i + 1);
      BoundMonotone(|group|, numChunks, i, i + 1);
      assert group[lower..upper] == Chunk(group, numChunks, i);
      chunks := chunks + [group[lower..upper]];
    }
    assert chunks == Chunks(group, numChunks);
    return Ok(chunks);
  }

  /** The sizes: quotient plus one for the first `remainder` chunks, the quotient after. */
  lemma ChunkSize<T>(group: seq<T>, n: nat, i: nat)
    requires 0 < n && i < n
    ensures |Chunks(group, n)[i]| == if i < |group| % n then |group| / n + 1 else |group| / n
  {
    BoundWithin(|group|, n, i + 1);
    BoundMonotone(|group|, n, i, i + 1);
    assert Chunks(group, n)[i] == Chunk(group, n, i);
    assert |Chunk(group, n, i)| == Bound(|group|, n, i + 1) - Bound(|group|, n, i);
  }

  /** No two chunks differ in size by more than one. */
  lemma ChunkSizesBalanced<T>(group: seq<T>, n: nat, i: nat, j: nat)
    requires 0 < n && i < n && j < n
    ensures |Chunks(group, n)[i]| <= |Chunks(group, n)[j]| + 1
  {
    ChunkSize(group, n, i);
    ChunkSize(group, n, j);
  }

  /** With more chunks than elements, the trailing chunks are empty and the others hold one each. */
  lemma TrailingChunksEmpty<T>(group: seq<T>, n: nat, i: nat)
    requires |group| < n && i < n
    ensures |Chunks(group, n)[i]| == if i < |group| then 1 else 0
  {
    SmallQuotient(|group|, n);
    ChunkSize(group, n, i);
  }

  /** Fewer elements than chunks: quotient 0, remainder the whole length. */
  lemma SmallQuotient(len: nat, n: nat)
    requires len < n
    ensures len / n == 0 && len % n == len
  {
  }

  /** The first `k` chunks concatenated are the prefix of `group` up to chunk `k`'s lower bound. */
  lemma {:induction false} ChunksPrefix<T>(group: seq<T>, n: nat, k: nat)
    requires 0 < n && k <= n
    ensures Bound(|group|, n, k) <= |group|
    ensures Flatten(Chunks(group, n)[..k]) == group[..Bound(|group|, n, k)]
  {
    BoundWithin(|group|, n, k);
    var cs := Chunks(group, n);
    if k > 0 {
      ChunksPrefix(group, n, k - 1);
      assert cs[..k][..k - 1] == cs[..k - 1];
      BoundMonotone(|group|, n, k - 1, k);
      var lo, hi := Bound(|group|, n, k - 1), Bound(|group|, n, k);
      assert group[..lo] + group[lo..hi] == group[..hi];
    }
  }

  /** Concatenating the chunks in order gives back the input: nothing skipped, nothing twice. */
  lemma ChunksCover<T>(group: seq<T>, n: nat)
    requires n > 0
    ensures Flatten(Chunks(group, n)) == group
  {
    ChunksPrefix(group, n, n);
    BoundEnds(|group|, n);
    assert Chunks(group, n)[..n] == Chunks(group, n);
  }
}
