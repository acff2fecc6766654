/** How a file of `size` bytes is cut into chunks of `chunk` bytes (src/manifest.cpp:33-35, 212-227). */
module Geometry {
  import opened Base

  datatype Layout = Layout(size: nat, chunk: nat) {
    predicate Valid() {
      0 < chunk <= MAX_CHUNK_BYTES && size <= MAX_UINT64
    }

    /** `expected_chunk_count`. */
    function Count(): nat
      requires Valid()
    {
      if size == 0 then 0 else (size - 1) / chunk + 1
    }

    /** `chunk_offset`, without the index check. */
    function Offset(i: nat): nat {
      i * chunk
    }

    /** `chunk_size`, without the index check; the last chunk may be short. */
    function Length(i: nat): int {
      Min(size - Offset(i), chunk)
    }

    predicate Inside(i: nat)
      requires Valid()
    {
      i < Count()
    }

    ghost predicate Covers(i: nat, position: nat) {
      Offset(i) <= position < Offset(i) + Length(i)
    }
  }

  lemma CountBrackets(l: Layout)
    requires l.Valid() && l.size > 0
    ensures (l.Count() - 1) * l.chunk < l.size <= l.Count() * l.chunk
  {
    var q := (l.size - 1) / l.chunk;
    assert l.size - 1 == q * l.chunk + (l.size - 1) % l.chunk;
    assert (q + 1) * l.chunk == q * l.chunk + l.chunk;
  }

  lemma MulMonotone(a: nat, b: nat, c: nat)
    requires a <= b
    ensures a * c <= b * c
  {
  }

  /** Every chunk is non-empty and inside the file; the subtraction and the product stay in 64 bits, the cast in 32. */
  lemma ChunkInFile(l: Layout, i: nat)
    requires l.Valid() && l.Inside(i)
    ensures l.Offset(i) < l.size
    ensures 0 < l.Length(i) <= l.chunk <= MAX_UINT32
    ensures l.Offset(i) + l.Length(i) <= l.size <= MAX_UINT64
  {
    CountBrackets(l);
    MulMonotone(i, l.Count() - 1, l.chunk);
  }

  /** Consecutive chunks touch, the first starts at 0 and the last ends at the end of the file. */
  lemma ChunksTouch(l: Layout, i: nat)
    requires l.Valid() && l.Inside(i)
    ensures l.Offset(0) == 0
    ensures l.Inside(i + 1) ==> l.Offset(i) + l.Length(i) == l.Offset(i + 1) && l.Length(i) == l.chunk
    ensures !l.Inside(i + 1) ==> l.Offset(i) + l.Length(i) == l.size
  {
    CountBrackets(l);
    assert (i + 1) * l.chunk == i * l.chunk + l.chunk;
    if l.Inside(i + 1) {
      ChunkInFile(l, i + 1);
    }
  }

  lemma ChunksOrdered(l: Layout, i: nat, j: nat)
    requires l.Valid() && l.Inside(j) && i < j
    ensures l.Offset(i) + l.Length(i) <= l.Offset(j)
  {
    MulMonotone(i + 1, j, l.chunk);
    assert (i + 1) * l.chunk == i * l.chunk + l.chunk;
  }

  lemma QuotientBrackets(p: nat, c: nat)
    requires c > 0
    ensures p / c * c <= p < p / c * c + c
  {
    assert p == p / c * c + p % c;
  }

  /** Every byte position of the file lies in some chunk ... */
  lemma LocateChunk(l: Layout, p: nat) returns (i: nat)
    requires l.Valid() && p < l.size
    ensures l.Inside(i) && l.Covers(i, p)
  {
    i := p / l.chunk;
    QuotientBrackets(p, l.chunk);
    CountBrackets(l);
    if l.Count() <= i {
      MulMonotone(l.Count(), i, l.chunk);
    }
  }

  /** ... and in no other. */
  lemma ChunksDisjoint(l: Layout, p: nat, i: nat, j: nat)
    requires l.Valid() && l.Inside(i) && l.Inside(j)
    requires l.Covers(i, p) && l.Covers(j, p)
    ensures i == j
  {
    if j < i {
      ChunksOrdered(l, j, i);
    } else if i < j {
      ChunksOrdered(l, i, j);
    }
  }

  function TotalLength(l: Layout, n: nat): int {
    if n == 0 then 0 else TotalLength(l, n - 1) + l.Length(n - 1)
  }

  lemma {:induction false} PrefixLength(l: Layout, n: nat)
    requires l.Valid() && n <= l.Count()
    ensures TotalLength(l, n) == if n == l.Count() then l.size else l.Offset(n)
  {
    if n > 0 {
      PrefixLength(l, n - 1);
      ChunksTouch(l, n - 1);
    }
  }

  /** The chunk lengths add up to the file size. */
  lemma LengthsSumToSize(l: Layout)
    requires l.Valid()
    ensures TotalLength(l, l.Count()) == l.size
  {
    PrefixLength(l, l.Count());
  }

  // ---------------------------------------------------------------- file contents

  function Slice(l: Layout, file: string, i: nat): (bytes: string)
    requires l.Valid() && |file| == l.size && l.Inside(i)
    ensures |bytes| == l.Length(i)
  {
    ChunkInFile(l, i);
    file[l.Offset(i)..l.Offset(i) + l.Length(i)]
  }

  function Zeros(n: nat): (file: string)
    ensures |file| == n
  {
    seq(n, i => 0 as char)
  }

  /** `pwrite` of `data` at `at`, inside the file. */
  function Overwrite(file: string, at: nat, data: string): (r: string)
    requires at + |data| <= |file|
    ensures |r| == |file|
    ensures forall k | 0 <= k < |file| :: r[k] == if at <= k < at + |data| then data[k - at] else file[k]
  {
    file[..at] + data + file[at + |data|..]
  }

  /** A write inside chunk `i` changes no other chunk. */
  lemma WriteLeavesOtherChunks(l: Layout, file: string, i: nat, at: nat, data: string, j: nat)
    requires l.Valid() && |file| == l.size && l.Inside(i) && l.Inside(j) && i != j
    requires l.Offset(i) <= at && at + |data| <= l.Offset(i) + l.Length(i)
    requires at + |data| <= |file|
    ensures Slice(l, Overwrite(file, at, data), j) == Slice(l, file, j)
  {
    if i < j {
      ChunksOrdered(l, i, j);
    } else {
      ChunksOrdered(l, j, i);
    }
  }

  lemma SliceOfSlice(s: string, from: nat, to: nat, n: nat)
    requires from <= to <= |s| && n <= to - from
    ensures s[from..to][..n] == s[from..from + n]
  {
  }

  lemma OverwriteWindow(file: string, from: nat, at: nat, data: string)
    requires from <= at && at + |data| <= |file|
    ensures Overwrite(file, at, data)[from..at + |data|] == file[from..at] + data
  {
  }

  /** A write at `done` inside chunk `i` extends the part already in place by `data`. */
  lemma WriteExtendsPrefix(l: Layout, file: string, i: nat, done: nat, data: string)
    requires l.Valid() && |file| == l.size && l.Inside(i)
    requires done + |data| <= l.Length(i)
    requires l.Offset(i) + done + |data| <= |file|
    ensures Slice(l, Overwrite(file, l.Offset(i) + done, data), i)[..done + |data|]
         == Slice(l, file, i)[..done] + data
  {
    var from, to := l.Offset(i), l.Offset(i) + l.Length(i);
    ChunkInFile(l, i);
    OverwriteWindow(file, from, from + done, data);
    SliceOfSlice(file, from, to, done);
    SliceOfSlice(Overwrite(file, from + done, data), from, to, done + |data|);
  }

  /** Files of the right size that agree chunk by chunk are equal. */
  lemma SlicesDetermineFile(l: Layout, a: string, b: string)
    requires l.Valid() && |a| == l.size && |b| == l.size
    requires forall i | l.Inside(i) :: Slice(l, a, i) == Slice(l, b, i)
    ensures a == b
  {
    forall p: nat | p < l.size
      ensures a[p] == b[p]
    {
      var i := LocateChunk(l, p);
      assert Slice(l, a, i) == Slice(l, b, i);
      assert a[p] == Slice(l, a, i)[p - l.Offset(i)];
      assert b[p] == Slice(l, b, i)[p - l.Offset(i)];
    }
  }
}
