/** The inductive invariant of the download machine, part by part. */
module DownloadInvariant {
  import opened Base
  import opened Counting
  import opened Geometry
  import opened ChunkLists
  import opened ResumeText
  import opened ResumeStore
  import opened PeerService
  import opened Download

  // ---------------------------------------------------------------- the files

  /** The published resume file lists only chunks that are right in the part file and were fsynced. */
  ghost predicate PublishedSound(c: Config, f: Files)
    requires c.manifest.Valid() && f.resume.published.Some?
  {
    && Sized(c, f)
    && var loaded := c.codec.load(f.resume.published.value);
    && loaded.Ok? && |loaded.value| == c.Count()
    && forall i | 0 <= i < c.Count() && loaded.value[i] :: Good(c, f.part.value, i) && i in f.durable
  }

  ghost predicate FinalVerified(c: Config, f: Files) {
    f.final.Some? && c.hash(f.final.value) == c.manifest.fileHash
  }

  /** Without outside damage the final file is verified, and before it exists the others are as follows. */
  ghost predicate DiskInv(c: Config, f: Files)
    requires c.manifest.Valid()
  {
    && (!f.damaged && f.final.Some? ==> FinalVerified(c, f))
    && (!f.damaged && f.final.None? ==>
         if f.resume.published.Some? then PublishedSound(c, f)
         else f.part.None? || f.part == Some("") || Sized(c, f))
  }

  // ---------------------------------------------------------------- the store

  /** Marks still to be checked: the store is consistent with the disk. */
  ghost predicate LoadedInv(c: Config, s: State)
    requires c.manifest.Valid()
  {
    && Sized(c, s.files) && s.files.final.None?
    && StoreInv(c.codec, c.Count(), s.Stored())
    && (!s.files.damaged ==> forall i | 0 <= i < c.Count() && s.memory.completed[i] :: i in s.files.durable)
  }

  ghost predicate MarksGood(c: Config, s: State, upTo: nat)
    requires c.manifest.Valid()
  {
    Sized(c, s.files)
    && forall i | 0 <= i < upTo && i < |s.memory.completed| && s.memory.completed[i] :: Good(c, s.files.part.value, i)
  }

  /** The published resume file, if there is one, lists only chunks marked in `marks`. */
  ghost predicate PublishedBelow(c: Config, d: Disk, marks: Marks) {
    d.published.Some? ==>
      var loaded := c.codec.load(d.published.value);
      loaded.Ok? && Below(loaded.value, marks)
  }

  /** What is on disk is below what is on its way there, which is below what is marked in memory. */
  ghost predicate NothingAhead(c: Config, s: State) {
    && PublishedBelow(c, s.files.resume, s.memory.completed)
    && (s.flight.Snapped? || s.flight.Writing? ==>
         && Below(s.flight.marks, s.memory.completed)
         && PublishedBelow(c, s.files.resume, s.flight.marks))
  }

  /** After revalidation: every mark is right, and so is whatever the disk says or will say. */
  ghost predicate TrustedInv(c: Config, s: State)
    requires c.manifest.Valid()
  {
    LoadedInv(c, s) && MarksGood(c, s, c.Count()) && NothingAhead(c, s)
  }

  // ---------------------------------------------------------------- the workers

  predicate Holds(w: Worker) {
    w.Writing? || w.Durable? || w.Marked? || w.Flushing?
  }

  /** The write lock names exactly the worker inside it, and only that worker can have a flush in flight. */
  ghost predicate LockInv(s: State) {
    && (forall w: nat | w < |s.work.workers| :: s.work.owner == Some(w) <==> Holds(s.work.workers[w]))
    && (s.work.owner.Some? ==> s.work.owner.value < |s.work.workers|)
    && (!s.flight.Idle? ==> s.work.owner.Some? && s.work.workers[s.work.owner.value].Flushing?)
  }

  /** The worker has claimed chunk `i` and not yet marked it. */
  predicate Pursues(w: Worker, i: nat) {
    (w.Claimed? || w.Fetching? || w.Fetched? || w.Writing? || w.Durable?) && w.i == i
  }

  predicate PastCheck(w: Worker) {
    w.Fetching? || w.Fetched? || w.Writing? || w.Durable?
  }

  /** What a worker knows about the chunk it is fetching or writing. */
  ghost predicate WorkerOk(c: Config, s: State, w: Worker)
    requires c.manifest.Valid()
  {
    && (PastCheck(w) ==> w.i < c.Count() && w.i < |s.memory.completed| && !s.memory.completed[w.i])
    && (w.Fetched? || w.Writing? ==> w.i < c.Count() && VerifiedChunk(c.manifest, c.hash, w.i, w.bytes))
    && (w.Writing? ==> w.done <= |w.bytes| && Sized(c, s.files)
                       && Slice(c.Shape(), s.files.part.value, w.i)[..w.done] == w.bytes[..w.done])
    && (w.Durable? ==> Sized(c, s.files) && Good(c, s.files.part.value, w.i) && w.i in s.files.durable)
  }

  ghost predicate WorkersOk(c: Config, s: State)
    requires c.manifest.Valid()
  {
    forall w | 0 <= w < |s.work.workers| :: WorkerOk(c, s, s.work.workers[w])
  }

  /** Claims are below the counter and no two workers pursue the same chunk. */
  ghost predicate ClaimInv(s: State) {
    && (forall w, i: nat | 0 <= w < |s.work.workers| && Pursues(s.work.workers[w], i) :: i < s.work.next)
    && (forall w, v, i: nat | 0 <= w < |s.work.workers| && 0 <= v < |s.work.workers|
                              && Pursues(s.work.workers[w], i) && Pursues(s.work.workers[v], i) :: w == v)
  }

  predicate Accounts(w: Worker, i: nat) {
    Pursues(w, i) || w == Raised(i)
  }

  /** Every claimed chunk is marked, still pursued, or the reason for a recorded failure. */
  ghost predicate Covered(s: State, i: nat) {
    || (i < |s.memory.completed| && s.memory.completed[i])
    || s.work.failure
    || exists w :: 0 <= w < |s.work.workers| && Accounts(s.work.workers[w], i)
  }

  ghost predicate CoverInv(c: Config, s: State) {
    && (forall i: nat | i < s.work.next && i < c.Count() :: Covered(s, i))
    && (forall w | 0 <= w < |s.work.workers| && s.work.workers[w].Done? ::
          if s.work.workers[w].exhausted then s.work.next > c.Count() else s.work.failed)
    && (forall w | 0 <= w < |s.work.workers| && s.work.workers[w].Recorded? :: s.work.failure)
    && (s.work.failed ==> s.work.failure)
  }

  function Overrun(n: nat): Worker -> nat {
    (w: Worker) => if (w.Claimed? && w.i >= n) || (w.Done? && w.exhausted) then 1 else 0
  }

  /** Each worker overruns the chunk count at most once, which bounds the counter. */
  ghost predicate CounterInv(c: Config, s: State) {
    && |s.work.workers| == c.workers
    && (s.work.next > c.Count() ==> s.work.next - c.Count() <= Total(Overrun(c.Count()), s.work.workers))
  }

  // ---------------------------------------------------------------- bystanders

  /** An announcement under construction claims only chunks that are complete now. */
  ghost predicate AdvertOk(marks: Marks, a: Advert) {
    && (!a.NotRead? ==> StrictlyIncreasing(a.chunks) && forall x | x in a.chunks :: x < |marks| && marks[x])
    && (a.BothRead? && a.hasAll ==> AllMarked(marks))
  }

  ghost predicate AdvertsOk(s: State) {
    && (forall k | 0 <= k < |s.work.adverts| :: AdvertOk(s.memory.completed, s.work.adverts[k]))
    && (forall w | 0 <= w < |s.work.workers| && s.work.workers[w].Announcing? ::
          AdvertOk(s.memory.completed, s.work.workers[w].advert))
  }

  /** Bytes read so far for an admitted request are those of the chunk, which is complete. */
  ghost predicate ReaderOk(c: Config, s: State, r: Reader)
    requires c.manifest.Valid()
  {
    r.Reading? ==>
      && r.i < c.Count() && r.i < |s.memory.completed| && s.memory.completed[r.i] && Sized(c, s.files)
      && |r.bytes| <= c.Shape().Length(r.i)
      && r.bytes == Slice(c.Shape(), s.files.part.value, r.i)[..|r.bytes|]
  }

  ghost predicate ReadersOk(c: Config, s: State)
    requires c.manifest.Valid()
  {
    forall r | 0 <= r < |s.work.readers| :: ReaderOk(c, s, s.work.readers[r])
  }

  ghost predicate CoordinatorOk(c: Config, s: State) {
    match s.work.coordinator
    case FirstAnnounce => s.flight.Idle?
    case Joining => true
    case AllThere => AllMarked(s.memory.completed) && s.flight.Idle? && !s.work.failure
    case SomeMissing => false
    case Broken => s.flight.Idle?
  }

  ghost predicate WorkInv(c: Config, s: State)
    requires c.manifest.Valid()
  {
    && c.MayBind(s.work.port)
    && LockInv(s) && WorkersOk(c, s) && ClaimInv(s) && CoverInv(c, s) && CounterInv(c, s)
    && AdvertsOk(s) && ReadersOk(c, s) && CoordinatorOk(c, s)
  }

  // ---------------------------------------------------------------- the whole

  predicate NoneMarked(marks: Marks) {
    forall i | 0 <= i < |marks| :: !marks[i]
  }

  /** A flush by the main thread works on the current marks: nothing else can change them. */
  ghost predicate MainFlight(s: State, begun: bool) {
    && (!s.flight.Idle? ==> begun && s.flight.revision == s.memory.revision)
    && (begun && s.flight.Idle? ==> !s.memory.dirty)
  }

  ghost predicate PhaseInv(c: Config, s: State)
    requires c.manifest.Valid()
  {
    match s.phase
    case Down => true
    case Starting => true
    case Sizing => s.files.part == Some("") && s.files.resume.published.None? && s.files.final.None?
    case Loading => Sized(c, s.files) && s.files.final.None?
    case Revalidating(next, changed) =>
      && LoadedInv(c, s) && s.flight.Idle? && next <= c.Count() && MarksGood(c, s, next)
      && (!changed ==> s.files.resume.published.None? || !s.memory.dirty)
      && (s.files.resume.published.None? ==> NoneMarked(s.memory.completed))
      && (!s.files.damaged ==> !changed)
    case RevalidationFlush(begun) =>
      LoadedInv(c, s) && MarksGood(c, s, c.Count()) && MainFlight(s, begun) && s.files.damaged
    case Working => TrustedInv(c, s) && WorkInv(c, s)
    case FinalFlush(begun) => TrustedInv(c, s) && MainFlight(s, begun) && AllMarked(s.memory.completed)
    case Checking => TrustedInv(c, s) && s.flight.Idle? && AllMarked(s.memory.completed)
    case Renaming =>
      && TrustedInv(c, s) && s.flight.Idle? && AllMarked(s.memory.completed)
      && c.hash(s.files.part.value) == c.manifest.fileHash
    case Cleaning => FinalVerified(c, s.files)
    case Returned => FinalVerified(c, s.files)
    case ErrorFlush(begun) => TrustedInv(c, s) && MainFlight(s, begun)
  }

  ghost predicate Inv(c: Config, s: State)
    requires c.manifest.Valid()
  {
    DiskInv(c, s.files) && PhaseInv(c, s)
  }
}
