/** The part file as an object: sizing it, writing a chunk, re-checking marks (src/download.cpp:40-59, 117-206). */
module PartialFile {
  import opened Base
  import opened Crypto
  import opened Geometry
  import opened Manifests
  import opened ResumeText
  import opened ResumeStore
  import opened PeerService

  class PartFile {
    var content: Option<string>
    /** No operation on healthy storage fails. */
    const healthy: bool

    constructor (content: Option<string>, healthy: bool)
      ensures this.content == content && this.healthy == healthy
    {
      this.content, this.healthy := content, healthy;
    }

    ghost predicate Sized(m: Manifest)
      reads this
    {
      content.Some? && |content.value| == m.fileSize
    }

    /**
     `prepare_partial_file`: a file that is there must have the right size; a new one is all zeros.  The byte
     that sizes it is buffered, so when writing it fails on closing, the file stays empty and nobody is told.
     */
    method Prepare(size: nat) returns (ok: bool)
      modifies this
      ensures ok && old(content).Some? ==> content == old(content) && |content.value| == size
      ensures ok && old(content).None? ==> content == Some(Zeros(size)) || (!healthy && content == Some(""))
      ensures healthy ==> (ok <==> old(content).None? || |old(content.value)| == size)
      ensures !ok ==> content == old(content) || (old(content).None? && content == Some(""))
    {
      if content.Some? {
        return |content.value| == size;
      }
      var fails: bool := *;
      if fails && !healthy {
        return false;
      }
      content := Some("");
      fails := *;
      if fails && !healthy {
        return false;
      }
      fails := *;
      if !fails || healthy {
        content := Some(Zeros(size));
      }
      return true;
    }

    /** Opening for reading. */
    method Open() returns (ok: bool)
      ensures ok ==> content.Some?
      ensures healthy ==> (ok <==> content.Some?)
    {
      var fails: bool := *;
      ok := content.Some? && (healthy || !fails);
    }

    /** `pwrite`: some of the bytes, at least one, or an error. */
    method Pwrite(at: nat, data: string) returns (written: nat)
      requires content.Some? && at + |data| <= |content.value| && data != ""
      modifies this
      ensures written <= |data| && (healthy ==> written > 0)
      ensures content == Some(Overwrite(old(content.value), at, data[..written]))
    {
      assert 0 < |data|;
      written :| written <= |data| && (healthy ==> written > 0);
      content := Some(Overwrite(content.value, at, data[..written]));
    }
  }

  // ---------------------------------------------------------------- re-checking marks

  /** A full read at the chunk's place succeeds and hashes to the manifest's entry; too short a file fails it. */
  predicate ReadsRight(m: Manifest, hash: Hash, file: string, i: nat)
    requires m.Valid() && i < |m.chunkHashes|
  {
    var bytes := ReadChunk(m, file, i);
    |bytes| == m.Shape().Length(i) && hash(bytes) == m.chunkHashes[i]
  }

  /** A chunk reads right exactly when all of it lies in the file and hashes right. */
  lemma ReadsRightIff(m: Manifest, hash: Hash, file: string, i: nat)
    requires m.Valid() && i < |m.chunkHashes|
    ensures ReadsRight(m, hash, file, i) <==> HoldsChunk(m, hash, Some(file), i)
  {
    ShortReadFails(m, file, i);
  }

  /** In a file of the right size that is the slice hashing right. */
  lemma RightMeansMatches(m: Manifest, hash: Hash, file: string, i: nat)
    requires m.Valid() && i < |m.chunkHashes| && |file| == m.fileSize
    ensures ReadsRight(m, hash, file, i) <==> Matches(m, hash, file, i)
  {
    ChunkInFile(m.Shape(), i);
  }

  /** The store of a download of `m`. */
  ghost predicate StoreOf(m: Manifest, store: ChunkStore)
    reads store, store.files
  {
    m.Valid() && store.Valid() && store.count == |m.chunkHashes|
  }

  /** `partial_chunk_matches`. */
  method ChunkMatches(m: Manifest, hash: Hash, file: PartFile, i: nat) returns (matches: bool)
    requires m.Valid() && file.content.Some? && i < |m.chunkHashes|
    ensures matches <==> ReadsRight(m, hash, file.content.value, i)
  {
    var bytes := ReadChunk(m, file.content.value, i);
    return |bytes| == m.Shape().Length(i) && hash(bytes) == m.chunkHashes[i];
  }

  /** Of the marks `was`, those among `looked` that are wrong have been taken away, giving `now`. */
  ghost predicate Rechecked(m: Manifest, hash: Hash, file: string, was: Marks, looked: seq<nat>, now: Marks)
    requires m.Valid() && |was| == |m.chunkHashes|
  {
    |now| == |was|
    && forall i | 0 <= i < |was| :: now[i] <==> was[i] && (i in looked ==> ReadsRight(m, hash, file, i))
  }

  lemma RecheckOne(m: Manifest, hash: Hash, file: string, was: Marks, looked: seq<nat>, now: Marks, i: nat)
    requires m.Valid() && |was| == |m.chunkHashes| && Rechecked(m, hash, file, was, looked, now) && i < |was|
    ensures Rechecked(m, hash, file, was, looked + [i], if ReadsRight(m, hash, file, i) then now else now[i := false])
  {
  }

  /** One turn of the loop below. */
  method RecheckChunk(m: Manifest, hash: Hash, file: PartFile, store: ChunkStore, i: nat) returns (changed: bool)
    requires StoreOf(m, store) && file.content.Some? && i < store.count
    modifies store
    ensures StoreOf(m, store) && changed == !ReadsRight(m, hash, file.content.value, i)
    ensures store.completed == if changed then old(store.completed)[i := false] else old(store.completed)
  {
    var matches := ChunkMatches(m, hash, file, i);
    if !matches {
      var _ := store.MarkIncomplete(i);
    }
    return !matches;
  }

  /** The loop over the marked chunks; the flush is left to the caller. */
  method Recheck(m: Manifest, hash: Hash, file: PartFile, store: ChunkStore, marked: seq<nat>) returns (changed: bool)
    requires StoreOf(m, store) && file.content.Some? && forall k | 0 <= k < |marked| :: marked[k] < store.count
    modifies store
    ensures StoreOf(m, store)
    ensures Rechecked(m, hash, file.content.value, old(store.completed), marked, store.completed)
    ensures !changed ==> store.completed == old(store.completed)
  {
    ghost var was := store.completed;
    changed := false;
    for k := 0 to |marked|
      invariant StoreOf(m, store)
      invariant Rechecked(m, hash, file.content.value, was, marked[..k], store.completed)
      invariant !changed ==> store.completed == was
    {
      var i := marked[k];
      assert marked[..k + 1] == marked[..k] + [i];
      RecheckOne(m, hash, file.content.value, was, marked[..k], store.completed, i);
      var wrong := RecheckChunk(m, hash, file, store, i);
      changed := changed || wrong;
    }
    assert marked[..|marked|] == marked;
  }

  /** Exactly the marks that are right in `content` have survived; without a file none is. */
  ghost predicate Survivors(m: Manifest, hash: Hash, content: Option<string>, was: Marks, now: Marks)
    requires m.Valid() && |was| == |m.chunkHashes|
  {
    |now| == |was|
    && forall i | 0 <= i < |was| :: now[i] <==> was[i] && content.Some? && ReadsRight(m, hash, content.value, i)
  }

  /**
   `revalidate_completed_chunks`: exactly the marks that are right survive, and a change is published.  A part
   file that cannot be read is an error unless there is nothing to check.
   */
  method Revalidate(m: Manifest, hash: Hash, file: PartFile, store: ChunkStore) returns (ok: bool)
    requires StoreOf(m, store)
    modifies store, store.files
    ensures StoreOf(m, store)
    ensures Survivors(m, hash, file.content, old(store.completed), store.completed)
            || (!ok && store.completed == old(store.completed))
    ensures ok ==> Survivors(m, hash, file.content, old(store.completed), store.completed)
    ensures ok && store.completed != old(store.completed) ==> !store.dirty
    ensures !ok ==> store.files.disk.published == old(store.files.disk.published)
    ensures file.healthy && store.files.healthy ==>
              (ok <==> file.content.Some? || forall i | 0 <= i < store.count :: !old(store.completed)[i])
  {
    var marked := store.CompletedChunks();
    if marked == [] {
      return true;
    }
    assert marked[0] in marked;
    ok := file.Open();
    if !ok {
      return;
    }
    var changed := Recheck(m, hash, file, store, marked);
    if changed {
      ok := store.Flush();
    }
  }

  // ---------------------------------------------------------------- writing a chunk

  /** The write loop on its own: chunk `i` becomes `data`, or an error leaves part of it; nothing else changes. */
  method WriteChunk(m: Manifest, file: PartFile, i: nat, data: string) returns (ok: bool)
    requires m.Valid() && file.Sized(m) && i < |m.chunkHashes| && |data| == m.Shape().Length(i)
    modifies file
    ensures file.Sized(m)
    ensures ok ==> Slice(m.Shape(), file.content.value, i) == data
    ensures forall j | 0 <= j < |m.chunkHashes| && j != i ::
              Slice(m.Shape(), file.content.value, j) == Slice(m.Shape(), old(file.content.value), j)
    ensures file.healthy ==> ok
  {
    var l := m.Shape();
    var written := 0;
    ChunkInFile(l, i);
    while written < |data|
      invariant written <= |data| && file.Sized(m)
      invariant Slice(l, file.content.value, i)[..written] == data[..written]
      invariant forall j | 0 <= j < |m.chunkHashes| && j != i ::
                  Slice(l, file.content.value, j) == Slice(l, old(file.content.value), j)
    {
      ghost var before := file.content.value;
      var n := file.Pwrite(l.Offset(i) + written, data[written..]);
      WriteExtendsPrefix(l, before, i, written, data[written..][..n]);
      forall j | 0 <= j < |m.chunkHashes| && j != i
        ensures Slice(l, file.content.value, j) == Slice(l, before, j)
      {
        WriteLeavesOtherChunks(l, before, i, l.Offset(i) + written, data[written..][..n], j);
      }
      if n == 0 {
        return false;
      }
      assert data[..written] + data[written..][..n] == data[..written + n];
      written := written + n;
    }
    var fsyncFails: bool := *;
    ok := file.healthy || !fsyncFails;
  }

  /** Every marked chunk, but perhaps chunk `except`, is right in the part file. */
  ghost predicate Sound(m: Manifest, hash: Hash, file: PartFile, store: ChunkStore, except: Option<nat>)
    requires StoreOf(m, store) && file.Sized(m)
    reads file, store, store.files
  {
    forall i: nat | i < store.count && store.completed[i] && except != Some(i) :: Matches(m, hash, file.content.value, i)
  }

  /**
   `write_verified_chunk`: every other marked chunk stays right whatever fails, and so does this one unless it
   was already marked and rewriting it failed; success means written, marked and published.
   */
  method WriteVerifiedChunk(m: Manifest, hash: Hash, i: nat, data: string, file: PartFile, store: ChunkStore)
    returns (ok: bool)
    requires StoreOf(m, store) && file.Sized(m) && Sound(m, hash, file, store, None)
    requires i < store.count && VerifiedChunk(m, hash, i, data)
    modifies file, store, store.files
    ensures StoreOf(m, store) && file.Sized(m)
    ensures Sound(m, hash, file, store, if ok || !old(store.completed[i]) then None else Some(i))
    ensures ok ==> Slice(m.Shape(), file.content.value, i) == data
                   && store.completed == old(store.completed)[i := true]
                   && SavedAs(FileCodec(store.id, store.count), store.files.disk, store.completed)
    ensures !ok ==> store.files.disk.published == old(store.files.disk.published)
    ensures file.healthy && store.files.healthy ==> ok
  {
    ok := WriteChunk(m, file, i, data);
    if ok {
      var _ := store.MarkComplete(i);
      ok := store.Flush();
    }
  }
}
