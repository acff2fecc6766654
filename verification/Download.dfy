/**
 A download with its crashes and restarts as a state machine (src/download.cpp:40-59, 117-343).
 Every file operation, lock operation and access to shared state is a step; between any two steps another
 thread may run, the process may be killed, and while it is down the files may be damaged from outside.
 */
module Download {
  import opened Base
  import opened Crypto
  import opened Geometry
  import opened Manifests
  import opened ResumeText
  import opened ResumeStore
  import opened PeerService

  /** `sendable` tells whether a chunk list, a has-all flag and a port make an announcement that can be sent. */
  datatype Config = Config(
    manifest: Manifest, hash: Hash, codec: Codec, workers: nat, sendable: (seq<nat>, bool, nat) -> bool, listenPort: nat)
  {
    function Count(): nat {
      |manifest.chunkHashes|
    }

    function Shape(): Layout {
      manifest.Shape()
    }

    /** Any port will do when none is configured. */
    predicate MayBind(port: nat) {
      0 < port <= MAX_UINT16 && (listenPort != 0 ==> port == listenPort)
    }

    /** Marks that make an announcement the tracker client agrees to send. */
    predicate Announces(marks: Marks, port: nat) {
      sendable(Indices(marks, |marks|), AllMarked(marks), port)
    }

    /** The claim counter is 32 bits wide; the sum keeps it from wrapping. */
    ghost predicate Valid() {
      && manifest.Valid() && ProducesDigests(hash) && Faithful(codec, Count())
      && workers > 0 && Count() + workers <= MAX_UINT32 && listenPort <= MAX_UINT16
    }
  }

  /** The bytes of chunk `i` in `file` hash to what the manifest says. */
  ghost predicate Good(c: Config, file: string, i: nat)
    requires c.manifest.Valid()
  {
    |file| == c.manifest.fileSize && Matches(c.manifest, c.hash, file, i)
  }

  // ---------------------------------------------------------------- state

  /**
   `durable` holds the chunks not written since the last fsync of the part file; `damaged` records that
   something outside the program has ever changed the files.
   */
  datatype Files = Files(
    part: Option<string>, durable: set<nat>, resume: Disk, final: Option<string>, damaged: bool)

  /** An announcement being put together from two separately locked reads. */
  datatype Advert =
    | NotRead
    | ListRead(chunks: seq<nat>)
    | BothRead(chunks: seq<nat>, hasAll: bool)

  datatype Worker =
    | Top                                              // about to read failed
    | Claiming                                         // about to fetch_add
    | Claimed(i: nat)
    | Fetching(i: nat)
    | Fetched(i: nat, bytes: string)                   // waiting for write_mutex
    | Writing(i: nat, bytes: string, done: nat)        // holds write_mutex
    | Durable(i: nat)                                  // holds write_mutex, fsync done
    | Marked(i: nat)                                   // holds write_mutex, marked in memory
    | Flushing(i: nat)                                 // holds write_mutex, inside flush
    | Announcing(advert: Advert)
    | Raised(i: nat)                                   // exception caught, nothing recorded yet
    | Recorded                                         // failure recorded, failed not yet set
    | Done(exhausted: bool)                            // returned: past the last chunk, or because of failed

  /** A peer-server connection reading an admitted chunk piece by piece. */
  datatype Reader = NoRequest | Reading(i: nat, bytes: string)

  datatype Coordinator = FirstAnnounce | Joining | AllThere | SomeMissing | Broken

  datatype Work = Work(
    workers: seq<Worker>, next: nat, failed: bool, failure: bool, owner: Option<nat>,
    coordinator: Coordinator, adverts: seq<Advert>, readers: seq<Reader>, port: nat)

  datatype Phase =
    | Down
    | Starting
    | Sizing                                           // part file created, not yet extended
    | Loading
    | Revalidating(next: nat, changed: bool)
    | RevalidationFlush(begun: bool)
    | Working
    | FinalFlush(begun: bool)
    | Checking
    | Renaming
    | Cleaning
    | Returned
    | ErrorFlush(begun: bool)

  datatype State = State(phase: Phase, files: Files, memory: Memory, flight: Flight, work: Work) {
    function Stored(): Store {
      Store(memory, flight, files.resume)
    }

    function WithStore(store: Store): State {
      this.(memory := store.memory, flight := store.flight, files := files.(resume := store.disk))
    }

    function WithWorker(w: nat, worker: Worker): State
      requires w < |work.workers|
    {
      this.(work := work.(workers := work.workers[w := worker]))
    }
  }

  function EmptyFiles(): Files {
    Files(None, {}, Disk(None, None), None, false)
  }

  function NoMemory(): Memory {
    Memory([], 0, true)
  }

  function NoWork(): Work {
    Work([], 0, false, false, None, FirstAnnounce, [], [], 0)
  }

  ghost predicate Init(s: State) {
    s == State(Down, EmptyFiles(), NoMemory(), Idle, NoWork())
  }

  ghost predicate Sized(c: Config, f: Files) {
    f.part.Some? && |f.part.value| == c.manifest.fileSize
  }

  // ---------------------------------------------------------------- start-up

  datatype Action =
    // start-up
    | Start | Examine | ExtendPart | LoadResume | RevalidateNext | RevalidationEnds | Abort
    // a flush by the main thread
    | MainBegins | MainFlushes(step: StoreAction) | MainFlushFails | MainFlushEnds
    // workers
    | EnterLoop(w: nat) | Claim(w: nat) | CheckClaim(w: nat) | FetchOk(w: nat, bytes: string) | FetchFails(w: nat)
    | LockWrites(w: nat) | Pwrite(w: nat, count: nat) | Fsync(w: nat) | WriteFails(w: nat) | MarkChunk(w: nat)
    | WorkerBegins(w: nat) | WorkerFlushes(w: nat, step: StoreAction) | WorkerFlushFails(w: nat)
    | WorkerFlushEnds(w: nat) | ReadList(w: nat) | ReadAll(w: nat) | AnnounceEnds(w: nat)
    | RecordFailure(w: nat) | SetFailed(w: nat)
    // heartbeat and peer server
    | BeatReadsList(k: nat) | BeatReadsAll(k: nat) | BeatEnds(k: nat)
    | Admit(r: nat, i: nat) | ReadMore(r: nat, count: nat) | Reply(r: nat)
    // the main thread after start-up
    | StartWorkers | AnnounceFails | JoinWorkers | StopServers | CheckWhole | RenamePart | EndFails
    | RemoveResume | Exit
    // from outside
    | Crash(part: Option<string>) | Damage(files: Files)

  /** What `run` makes of the files it finds. */
  ghost predicate ExamineStep(c: Config, s: State, s': State) {
    var f := s.files;
    if f.final.Some? then
      s' == s.(phase := if c.hash(f.final.value) == c.manifest.fileHash then Returned else Down)
    else if f.resume.published.Some? && f.part.None? then
      s' == s.(phase := Down)
    else if f.part.Some? then
      s' == s.(phase := if |f.part.value| == c.manifest.fileSize then Loading else Down)
    else
      s' == s.(phase := Sizing, files := f.(part := Some(""), durable := {}))
  }

  /** `load_or_create`: a missing file means no marks and a dirty store. */
  ghost predicate LoadStep(c: Config, s: State, s': State) {
    var loaded := s.(phase := Revalidating(0, false), flight := Idle);
    match s.files.resume.published
    case None => s' == loaded.(memory := Memory(MarksOf([], c.Count()), 0, true))
    case Some(text) =>
      match c.codec.load(text)
      case Ok(marks) => s' == loaded.(memory := Memory(marks, 0, false))
      case Err => s' == s.(phase := Down)
  }

  /** One marked chunk is read back and, if it does not hash right, unmarked. */
  ghost predicate RevalidateStep(c: Config, s: State, s': State)
    requires c.manifest.Valid()
  {
    && s.phase.Revalidating? && Sized(c, s.files)
    && var i := s.phase.next;
    && i < c.Count() && i < |s.memory.completed|
    && s' == if s.memory.completed[i] && !Good(c, s.files.part.value, i)
             then s.(phase := Revalidating(i + 1, true), memory := WithMark(s.memory, i, false))
             else s.(phase := Revalidating(i + 1, s.phase.changed))
  }

  ghost predicate FreshWork(c: Config, work: Work) {
    && |work.workers| == c.workers && (forall w | 0 <= w < c.workers :: work.workers[w] == Top)
    && c.MayBind(work.port) && work.next == 0 && !work.failed && !work.failure && work.owner.None? && work.coordinator.FirstAnnounce?
    && (forall k | 0 <= k < |work.adverts| :: work.adverts[k] == NotRead)
    && (forall r | 0 <= r < |work.readers| :: work.readers[r] == NoRequest)
  }

  ghost predicate StartUpStep(c: Config, s: State, a: Action, s': State)
    requires c.manifest.Valid()
  {
    match a
    case Start => s.phase.Down? && s' == s.(phase := Starting)
    case Examine => s.phase.Starting? && ExamineStep(c, s, s')
    case ExtendPart =>
      s.phase.Sizing? && s' == s.(phase := Loading, files := s.files.(part := Some(Zeros(c.manifest.fileSize))))
    case LoadResume => s.phase.Loading? && LoadStep(c, s, s')
    case RevalidateNext => RevalidateStep(c, s, s')
    case RevalidationEnds =>
      && s.phase.Revalidating? && s.phase.next == c.Count()
      && if s.phase.changed then s' == s.(phase := RevalidationFlush(false))
         else FreshWork(c, s'.work) && s' == s.(phase := Working, work := s'.work)
    case Abort =>
      && (s.phase.Starting? || s.phase.Sizing? || s.phase.Loading? || s.phase.Revalidating?)
      && s' == s.(phase := Down)
    case _ => false
  }

  // ---------------------------------------------------------------- flushes by the main thread

  predicate MainFlushing(p: Phase) {
    p.RevalidationFlush? || p.FinalFlush? || p.ErrorFlush?
  }

  /** The steps a flush takes once it has begun. */
  predicate FlushStep(a: StoreAction) {
    a.OpenTemporary? || a.WriteTemporary? || a.RenameTemporary? || a.EndFlush?
  }

  ghost predicate MainFlushStep(c: Config, s: State, a: Action, s': State) {
    && MainFlushing(s.phase)
    && match a
       case MainBegins =>
         && !s.phase.begun
         && exists st :: StoreStep(c.codec, s.Stored(), BeginFlush, st)
                         && s' == s.WithStore(st).(phase := s.phase.(begun := true))
       case MainFlushes(step) =>
         && s.phase.begun && FlushStep(step)
         && exists st :: StoreStep(c.codec, s.Stored(), step, st) && s' == s.WithStore(st)
       case MainFlushFails =>
         && s.phase.begun
         && exists st :: StoreStep(c.codec, s.Stored(), FailFlush, st)
                         && s' == s.WithStore(st).(phase := if s.phase.FinalFlush? then ErrorFlush(false) else Down)
       case MainFlushEnds =>
         && s.phase.begun && s.flight.Idle?
         && (match s.phase
             case RevalidationFlush(_) => FreshWork(c, s'.work) && s' == s.(phase := Working, work := s'.work)
             case FinalFlush(_) => s' == s.(phase := Checking)
             case _ => s' == s.(phase := Down))
       case _ => false
  }

  // ---------------------------------------------------------------- workers

  /** Steps of one worker that touch neither the files nor the marks. */
  ghost predicate QuietStep(c: Config, s: State, a: Action, s': State)
    requires c.manifest.Valid()
  {
    match a
    case EnterLoop(w) =>
      w < |s.work.workers| && s.work.workers[w].Top?
      && s' == s.WithWorker(w, if s.work.failed then Done(false) else Claiming)
    case Claim(w) =>
      w < |s.work.workers| && s.work.workers[w].Claiming?
      && s' == s.WithWorker(w, Claimed(s.work.next)).(
                 work := s.WithWorker(w, Claimed(s.work.next)).work.(next := (s.work.next + 1) % (MAX_UINT32 + 1)))
    case CheckClaim(w) =>
      && w < |s.work.workers| && s.work.workers[w].Claimed?
      && var i := s.work.workers[w].i;
      && (i < c.Count() ==> i < |s.memory.completed|)
      && s' == s.WithWorker(w, if i >= c.Count() then Done(true)
                               else if s.memory.completed[i] then Top
                               else Fetching(i))
    case FetchOk(w, bytes) =>
      && w < |s.work.workers| && s.work.workers[w].Fetching? && s.work.workers[w].i < c.Count()
      && VerifiedChunk(c.manifest, c.hash, s.work.workers[w].i, bytes)
      && s' == s.WithWorker(w, Fetched(s.work.workers[w].i, bytes))
    case FetchFails(w) =>
      w < |s.work.workers| && s.work.workers[w].Fetching? && s' == s.WithWorker(w, Raised(s.work.workers[w].i))
    case LockWrites(w) =>
      && w < |s.work.workers| && s.work.workers[w].Fetched? && s.work.owner.None?
      && var t := s.WithWorker(w, Worker.Writing(s.work.workers[w].i, s.work.workers[w].bytes, 0));
      && s' == t.(work := t.work.(owner := Some(w)))
    case WriteFails(w) =>
      && w < |s.work.workers| && (s.work.workers[w].Writing? || s.work.workers[w].Durable?)
      && var t := s.WithWorker(w, Raised(s.work.workers[w].i));
      && s' == t.(work := t.work.(owner := None))
    case WorkerFlushEnds(w) =>
      && w < |s.work.workers| && s.work.workers[w].Flushing? && s.flight.Idle?
      && var t := s.WithWorker(w, Announcing(NotRead));
      && s' == t.(work := t.work.(owner := None))
    case ReadList(w) =>
      && w < |s.work.workers| && s.work.workers[w] == Announcing(NotRead)
      && s' == s.WithWorker(w, Announcing(ListRead(Indices(s.memory.completed, |s.memory.completed|))))
    case ReadAll(w) =>
      && w < |s.work.workers| && s.work.workers[w].Announcing? && s.work.workers[w].advert.ListRead?
      && s' == s.WithWorker(w, Announcing(BothRead(s.work.workers[w].advert.chunks, AllMarked(s.memory.completed))))
    case AnnounceEnds(w) =>
      w < |s.work.workers| && s.work.workers[w].Announcing? && s' == s.WithWorker(w, Top)
    case RecordFailure(w) =>
      && w < |s.work.workers| && s.work.workers[w].Raised?
      && s' == s.WithWorker(w, Recorded).(work := s.WithWorker(w, Recorded).work.(failure := true))
    case SetFailed(w) =>
      && w < |s.work.workers| && s.work.workers[w].Recorded?
      && s' == s.WithWorker(w, Done(false)).(work := s.WithWorker(w, Done(false)).work.(failed := true))
    case _ => false
  }

  /** One `pwrite` of part of the chunk, at its place in the part file. */
  ghost predicate PwriteStep(c: Config, s: State, w: nat, count: nat, s': State) {
    && w < |s.work.workers| && s.work.workers[w].Writing? && Sized(c, s.files)
    && var worker := s.work.workers[w];
    && var at := c.Shape().Offset(worker.i) + worker.done;
    && 0 < count && worker.done + count <= |worker.bytes| && at + count <= |s.files.part.value|
    && var data := worker.bytes[worker.done..worker.done + count];
    && s' == s.WithWorker(w, worker.(done := worker.done + count)).(
               files := s.files.(part := Some(Overwrite(s.files.part.value, at, data)),
                                 durable := s.files.durable - {worker.i}))
  }

  /** Steps of one worker that touch the files or the marks; it holds the write lock throughout. */
  ghost predicate WritingStep(c: Config, s: State, a: Action, s': State) {
    match a
    case Pwrite(w, count) => PwriteStep(c, s, w, count, s')
    case Fsync(w) =>
      && w < |s.work.workers| && s.work.workers[w].Writing? && s.work.workers[w].done == |s.work.workers[w].bytes|
      && s' == s.WithWorker(w, Durable(s.work.workers[w].i)).(
                 files := s.files.(durable := Range(c.Count())))
    case MarkChunk(w) =>
      && w < |s.work.workers| && s.work.workers[w].Durable? && s.work.workers[w].i < |s.memory.completed|
      && s' == s.WithWorker(w, Marked(s.work.workers[w].i)).(
                 memory := WithMark(s.memory, s.work.workers[w].i, true))
    case WorkerBegins(w) =>
      && w < |s.work.workers| && s.work.workers[w].Marked?
      && exists st :: StoreStep(c.codec, s.Stored(), BeginFlush, st)
                      && s' == s.WithStore(st).WithWorker(w, Flushing(s.work.workers[w].i))
    case WorkerFlushes(w, step) =>
      && w < |s.work.workers| && s.work.workers[w].Flushing? && FlushStep(step)
      && exists st :: StoreStep(c.codec, s.Stored(), step, st) && s' == s.WithStore(st)
    case WorkerFlushFails(w) =>
      && w < |s.work.workers| && s.work.workers[w].Flushing?
      && exists st :: StoreStep(c.codec, s.Stored(), FailFlush, st)
                      && var t := s.WithStore(st).WithWorker(w, Raised(s.work.workers[w].i));
                         s' == t.(work := t.work.(owner := None))
    case _ => false
  }

  // ---------------------------------------------------------------- heartbeat, peer server, coordinator

  ghost predicate BystanderStep(c: Config, s: State, a: Action, s': State)
    requires c.manifest.Valid()
  {
    match a
    case BeatReadsList(k) =>
      && k < |s.work.adverts| && s.work.adverts[k].NotRead?
      && s' == s.(work := s.work.(adverts :=
                 s.work.adverts[k := ListRead(Indices(s.memory.completed, |s.memory.completed|))]))
    case BeatReadsAll(k) =>
      && k < |s.work.adverts| && s.work.adverts[k].ListRead?
      && s' == s.(work := s.work.(adverts :=
                 s.work.adverts[k := BothRead(s.work.adverts[k].chunks, AllMarked(s.memory.completed))]))
    case BeatEnds(k) =>
      && k < |s.work.adverts| && s' == s.(work := s.work.(adverts := s.work.adverts[k := NotRead]))
    case Admit(r, i) =>
      && r < |s.work.readers| && s.work.readers[r].NoRequest? && i < |s.memory.completed| && s.memory.completed[i]
      && s' == s.(work := s.work.(readers := s.work.readers[r := Reading(i, "")]))
    case ReadMore(r, count) =>
      && r < |s.work.readers| && s.work.readers[r].Reading? && Sized(c, s.files)
      && var i, bytes := s.work.readers[r].i, s.work.readers[r].bytes;
      && var at := c.Shape().Offset(i) + |bytes|;
      && |bytes| + count <= c.Shape().Length(i) && at + count <= |s.files.part.value|
      && s' == s.(work := s.work.(readers :=
                 s.work.readers[r := Reading(i, bytes + s.files.part.value[at..at + count])]))
    case Reply(r) =>
      && r < |s.work.readers| && s' == s.(work := s.work.(readers := s.work.readers[r := NoRequest]))
    case _ => false
  }

  /**
   The main thread.  Its first announcement, unlike all later ones, ends the run when it fails; nothing changes
   the marks while it is put together.
   */
  ghost predicate CoordinatorStep(c: Config, s: State, a: Action, s': State) {
    match a
    case StartWorkers =>
      && s.work.coordinator.FirstAnnounce? && c.Announces(s.memory.completed, s.work.port)
      && s' == s.(work := s.work.(coordinator := Joining))
    case AnnounceFails =>
      s.work.coordinator.FirstAnnounce? && s' == s.(work := s.work.(coordinator := Broken))
    case JoinWorkers =>
      && s.work.coordinator.Joining? && (forall w | 0 <= w < |s.work.workers| :: s.work.workers[w].Done?)
      && s' == s.(work := s.work.(coordinator := if s.work.failure then Broken
                                                 else if AllMarked(s.memory.completed) then AllThere
                                                 else SomeMissing))
    case StopServers =>
      && (s.work.coordinator.AllThere? || s.work.coordinator.SomeMissing? || s.work.coordinator.Broken?)
      && s' == s.(phase := if s.work.coordinator.AllThere? then FinalFlush(false) else ErrorFlush(false))
    case _ => false
  }

  ghost predicate WorkingStep(c: Config, s: State, a: Action, s': State)
    requires c.manifest.Valid()
  {
    && s.phase.Working?
    && (|| (s.work.coordinator.Joining? && (QuietStep(c, s, a, s') || WritingStep(c, s, a, s')))
        || BystanderStep(c, s, a, s') || CoordinatorStep(c, s, a, s'))
  }

  ghost predicate EndStep(c: Config, s: State, a: Action, s': State) {
    match a
    case CheckWhole =>
      s.phase.Checking? && s.files.part.Some?
      && s' == s.(phase := if c.hash(s.files.part.value) == c.manifest.fileHash then Renaming else ErrorFlush(false))
    case RenamePart =>
      s.phase.Renaming? && s.files.part.Some?
      && s' == s.(phase := Cleaning, files := s.files.(part := None, final := s.files.part))
    case EndFails => (s.phase.Checking? || s.phase.Renaming?) && s' == s.(phase := ErrorFlush(false))
    case RemoveResume =>
      s.phase.Cleaning?
      && (|| s' == s.(phase := Returned)
          || s' == s.(phase := Returned, files := s.files.(resume := s.files.resume.(published := None))))
    case Exit => s.phase.Returned? && s' == s.(phase := Down)
    case _ => false
  }

  // ---------------------------------------------------------------- from outside

  /** Bytes of the part file a crash may lose: anything in a chunk written since the last fsync. */
  ghost predicate Survives(c: Config, f: Files, part: Option<string>)
    requires c.manifest.Valid()
  {
    if !Sized(c, f) then part == f.part
    else part.Some? && |part.value| == c.manifest.fileSize
         && forall i: nat | i < c.Count() && i in f.durable ::
              Slice(c.Shape(), part.value, i) == Slice(c.Shape(), f.part.value, i)
  }

  ghost predicate OutsideStep(c: Config, s: State, a: Action, s': State)
    requires c.manifest.Valid()
  {
    match a
    case Crash(part) =>
      !s.phase.Down? && Survives(c, s.files, part) && s' == s.(phase := Down, files := s.files.(part := part))
    case Damage(files) =>
      s.phase.Down? && s' == s.(files := files.(damaged := true))
    case _ => false
  }

  ghost predicate Step(c: Config, s: State, a: Action, s': State)
    requires c.manifest.Valid()
  {
    || StartUpStep(c, s, a, s') || MainFlushStep(c, s, a, s') || WorkingStep(c, s, a, s')
    || EndStep(c, s, a, s') || OutsideStep(c, s, a, s')
  }

  ghost predicate Run(c: Config, states: seq<State>, actions: seq<Action>)
    requires c.manifest.Valid()
  {
    && |states| == |actions| + 1 && Init(states[0])
    && forall k | 0 <= k < |actions| :: Step(c, states[k], actions[k], states[k + 1])
  }
}
