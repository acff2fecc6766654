/**
 Every stopped download can be finished, except those of `DownloadHalt`: from any other state a path of steps
 in which no storage and no network operation fails leads to a normal return with the source in place.
 */
module DownloadRecovery {
  import opened Base
  import opened Geometry
  import opened ResumeText
  import opened ResumeStore
  import opened PeerService
  import opened Download
  import opened DownloadInvariant
  import opened DownloadSteps
  import opened DownloadTheorems
  import opened DownloadPaths
  import opened DownloadHalt

  // ---------------------------------------------------------------- going one step further

  /** `s` can be reached from `o` and satisfies the invariant. */
  ghost predicate Got(c: Config, o: State, s: State)
    requires c.manifest.Valid()
  {
    Leads(c, o, s) && Inv(c, s)
  }

  lemma Further(c: Config, o: State, s: State, a: Action, t: State)
    requires c.Valid() && Got(c, o, s) && Step(c, s, a, t) && !a.Damage?
    ensures Got(c, o, t)
  {
    StepKeepsInv(c, s, a, t);
    StepLeads(c, s, a, t);
    LeadsOn(c, o, s, t);
  }

  lemma ByStartUp(c: Config, o: State, s: State, a: Action, t: State)
    requires c.Valid() && Got(c, o, s) && StartUpStep(c, s, a, t)
    ensures Got(c, o, t)
  {
    StartUpKeepsHistory(c, s, a, t);
    Further(c, o, s, a, t);
  }

  lemma Onward(c: Config, o: State, s: State, a: Action, t: State)
    requires c.Valid() && Leads(c, o, s) && Step(c, s, a, t) && !a.Damage?
    ensures Leads(c, o, t)
  {
    StepLeads(c, s, a, t);
    LeadsOn(c, o, s, t);
  }

  lemma ByWorker(c: Config, o: State, s: State, a: Action, t: State)
    requires c.Valid() && Leads(c, o, s) && s.phase.Working? && s.work.coordinator.Joining?
    requires QuietStep(c, s, a, t) || WritingStep(c, s, a, t)
    ensures Leads(c, o, t)
  {
    assert WorkingStep(c, s, a, t);
    WorkingKeepsHistory(c, s, a, t);
    Onward(c, o, s, a, t);
  }

  lemma ByCoordinator(c: Config, o: State, s: State, a: Action, t: State)
    requires c.Valid() && Leads(c, o, s) && s.phase.Working? && CoordinatorStep(c, s, a, t)
    ensures Leads(c, o, t)
  {
    assert WorkingStep(c, s, a, t);
    WorkingKeepsHistory(c, s, a, t);
    Onward(c, o, s, a, t);
  }

  lemma ByMainFlush(c: Config, o: State, s: State, a: Action, t: State)
    requires c.Valid() && Leads(c, o, s) && MainFlushStep(c, s, a, t)
    ensures Leads(c, o, t)
  {
    MainFlushKeepsHistory(c, s, a, t);
    Onward(c, o, s, a, t);
  }

  lemma ByEnd(c: Config, o: State, s: State, a: Action, t: State)
    requires c.Valid() && Leads(c, o, s) && EndStep(c, s, a, t)
    ensures Leads(c, o, t)
  {
    assert !a.Damage?;
    Onward(c, o, s, a, t);
  }

  // ---------------------------------------------------------------- start-up

  /** Nothing was damaged and the file is not finished. */
  ghost predicate Unfinished(f: Files) {
    !f.damaged && f.final.None?
  }

  /** A start gets as far as loading; a part file that was there is kept. */
  lemma ReachLoading(c: Config, o: State) returns (t: State)
    requires c.Valid() && Inv(c, o) && o.phase.Down? && Unfinished(o.files) && !ShortPart(c, o.files)
    ensures Got(c, o, t) && t.phase.Loading? && Unfinished(t.files)
    ensures t.files.resume == o.files.resume && (o.files.part.Some? ==> t.files.part == o.files.part)
    ensures o.files.part.None? ==> o.files.resume.published.None?
  {
    LeadsNowhere(c, o);
    var s := o.(phase := Starting);
    ByStartUp(c, o, o, Start, s);
    if o.files.part.Some? {
      t := s.(phase := Loading);
      ByStartUp(c, o, s, Examine, t);
    } else {
      var sizing := s.(phase := Sizing, files := s.files.(part := Some(""), durable := {}));
      ByStartUp(c, o, s, Examine, sizing);
      t := sizing.(phase := Loading, files := sizing.files.(part := Some(Zeros(c.manifest.fileSize))));
      ByStartUp(c, o, sizing, ExtendPart, t);
    }
  }

  /** Loading takes the marks from disk ... */
  lemma ReachLoaded(c: Config, o: State, s: State) returns (t: State)
    requires c.Valid() && Got(c, o, s) && s.phase.Loading? && Unfinished(s.files)
    ensures Got(c, o, t) && t.phase == Revalidating(0, false) && t.files == s.files && t.flight.Idle?
    ensures t.memory.completed == DiskMarks(c, s.files.resume)
    ensures t.memory.dirty ==> s.files.resume.published.None?
  {
    var loaded := s.(phase := Revalidating(0, false), flight := Idle);
    if s.files.resume.published.None? {
      t := loaded.(memory := Memory(MarksOf([], c.Count()), 0, true));
    } else {
      assert PublishedSound(c, s.files);
      t := loaded.(memory := Memory(c.codec.load(s.files.resume.published.value).value, 0, false));
    }
    ByStartUp(c, o, s, LoadResume, t);
  }

  /** ... and revalidation finds them right. */
  lemma {:induction false} ReachRevalidated(c: Config, o: State, s: State) returns (t: State)
    requires c.Valid() && Got(c, o, s) && s.phase.Revalidating? && Unfinished(s.files)
    ensures Got(c, o, t) && t == s.(phase := Revalidating(c.Count(), false))
    decreases c.Count() - s.phase.next
  {
    if s.phase.next == c.Count() {
      t := s;
    } else {
      var i := s.phase.next;
      MarkIsRight(c, s, i);
      var u := s.(phase := Revalidating(i + 1, false));
      ByStartUp(c, o, s, RevalidateNext, u);
      t := ReachRevalidated(c, o, u);
    }
  }

  lemma MarkIsRight(c: Config, s: State, i: nat)
    requires c.Valid() && Inv(c, s) && s.phase.Revalidating? && Unfinished(s.files) && i < c.Count()
    ensures Sized(c, s.files) && i < |s.memory.completed| && !s.phase.changed && s.phase.next <= c.Count()
    ensures s.memory.completed[i] ==> Good(c, s.files.part.value, i)
  {
  }

  // ---------------------------------------------------------------- one worker fetches everything

  /** Chunks marked in `marks` hold the source's bytes. */
  ghost predicate FromSource(c: Config, source: string, part: string, marks: Marks)
    requires BuiltFrom(c, source)
  {
    && |part| == c.manifest.fileSize && |marks| == c.Count()
    && forall i | 0 <= i < c.Count() && marks[i] :: Slice(c.Shape(), part, i) == Slice(c.Shape(), source, i)
  }

  ghost predicate AllAtTop(c: Config, work: Work) {
    && |work.workers| == c.workers && (forall w | 0 <= w < c.workers :: work.workers[w] == Top)
    && work.coordinator.Joining? && !work.failed && !work.failure && work.owner.None?
  }

  /** All workers are between chunks; those below `i` have been dealt with since the marks were `base`. */
  ghost predicate AtTop(c: Config, source: string, base: Marks, s: State, i: nat)
    requires BuiltFrom(c, source)
  {
    && s.phase.Working? && Unfinished(s.files) && Sized(c, s.files) && s.flight.Idle?
    && AllAtTop(c, s.work) && s.work.next == i <= c.Count()
    && FromSource(c, source, s.files.part.value, s.memory.completed) && |base| == c.Count()
    && (forall j | 0 <= j < c.Count() :: s.memory.completed[j] <==> j < i || base[j])
    && (s.memory.dirty ==> s.memory.completed == base)
  }

  /** The first announcement goes out on `port` and the workers start. */
  lemma ReachWorkers(c: Config, source: string, o: State, s: State, port: nat) returns (t: State)
    requires c.Valid() && BuiltFrom(c, source) && Got(c, o, s) && Unfinished(s.files) && Sized(c, s.files)
    requires s.phase == Revalidating(c.Count(), false) && s.flight.Idle?
    requires FromSource(c, source, s.files.part.value, s.memory.completed)
    requires c.MayBind(port) && c.Announces(s.memory.completed, port)
    requires s.memory.dirty ==> s.files.resume.published.None?
    ensures Leads(c, o, t) && AtTop(c, source, s.memory.completed, t, 0)
  {
    var u := s.(phase := Working, work := NewWork(c, port));
    ByStartUp(c, o, s, RevalidationEnds, u);
    t := u.(work := u.work.(coordinator := Joining));
    ByCoordinator(c, o, u, StartWorkers, t);
  }

  function NewWork(c: Config, port: nat): (work: Work)
    requires c.MayBind(port)
    ensures FreshWork(c, work) && work.port == port
  {
    Work(seq(c.workers, _ => Top), 0, false, false, None, FirstAnnounce, [], [], port)
  }

  /** The workers are at work and worker `w` exists. */
  ghost predicate AtWork(s: State, w: nat) {
    s.phase.Working? && s.work.coordinator.Joining? && w < |s.work.workers|
  }

  function Ahead(s: State): State {
    s.(work := s.work.(next := s.work.next + 1))
  }

  lemma PutTwice(s: State, w: nat, x: Worker, y: Worker)
    requires w < |s.work.workers|
    ensures s.WithWorker(w, x).WithWorker(w, y) == s.WithWorker(w, y)
  {
    assert s.work.workers[w := x][w := y] == s.work.workers[w := y];
  }

  lemma Enters(c: Config, o: State, s: State, w: nat)
    requires c.Valid() && Leads(c, o, s) && AtWork(s, w) && s.work.workers[w].Top? && !s.work.failed
    ensures Leads(c, o, s.WithWorker(w, Claiming))
  {
    ByWorker(c, o, s, EnterLoop(w), s.WithWorker(w, Claiming));
  }

  lemma TakesNext(c: Config, o: State, s: State, w: nat)
    requires c.Valid() && Leads(c, o, s) && AtWork(s, w) && s.work.workers[w].Claiming? && s.work.next < MAX_UINT32
    ensures Leads(c, o, Ahead(s.WithWorker(w, Claimed(s.work.next))))
  {
    ByWorker(c, o, s, Claim(w), Ahead(s.WithWorker(w, Claimed(s.work.next))));
  }

  function Checked(c: Config, s: State, i: nat): Worker
    requires i < c.Count() ==> i < |s.memory.completed|
  {
    if i >= c.Count() then Done(true) else if s.memory.completed[i] then Top else Fetching(i)
  }

  lemma Checks(c: Config, o: State, s: State, w: nat)
    requires c.Valid() && Leads(c, o, s) && AtWork(s, w) && s.work.workers[w].Claimed?
    requires |s.memory.completed| == c.Count()
    ensures Leads(c, o, s.WithWorker(w, Checked(c, s, s.work.workers[w].i)))
  {
    ByWorker(c, o, s, CheckClaim(w), s.WithWorker(w, Checked(c, s, s.work.workers[w].i)));
  }

  /** A worker claims the next index and looks whether it is needed. */
  lemma ReachClaimed(c: Config, o: State, s: State, w: nat)
    requires c.Valid() && Leads(c, o, s) && AtWork(s, w) && s.work.workers[w].Top? && !s.work.failed
    requires s.work.next < MAX_UINT32 && |s.memory.completed| == c.Count()
    ensures Leads(c, o, Ahead(s.WithWorker(w, Checked(c, s, s.work.next))))
  {
    var i := s.work.next;
    Enters(c, o, s, w);
    var s1 := s.WithWorker(w, Claiming);
    TakesNext(c, o, s1, w);
    PutTwice(s, w, Claiming, Claimed(i));
    var s2 := Ahead(s.WithWorker(w, Claimed(i)));
    Checks(c, o, s2, w);
    PutTwice(s, w, Claimed(i), Checked(c, s, i));
  }

  // ---------------------------------------------------------------- writing a chunk

  function Owned(s: State, owner: Option<nat>): State {
    s.(work := s.work.(owner := owner))
  }

  lemma Fetches(c: Config, o: State, s: State, w: nat, bytes: string)
    requires c.Valid() && Leads(c, o, s) && AtWork(s, w) && s.work.workers[w].Fetching?
    requires s.work.workers[w].i < c.Count() && VerifiedChunk(c.manifest, c.hash, s.work.workers[w].i, bytes)
    ensures Leads(c, o, s.WithWorker(w, Fetched(s.work.workers[w].i, bytes)))
  {
    ByWorker(c, o, s, FetchOk(w, bytes), s.WithWorker(w, Fetched(s.work.workers[w].i, bytes)));
  }

  lemma Locks(c: Config, o: State, s: State, w: nat)
    requires c.Valid() && Leads(c, o, s) && AtWork(s, w) && s.work.workers[w].Fetched? && s.work.owner.None?
    ensures var worker := s.work.workers[w];
            Leads(c, o, Owned(s.WithWorker(w, Worker.Writing(worker.i, worker.bytes, 0)), Some(w)))
  {
    var worker := s.work.workers[w];
    ByWorker(c, o, s, LockWrites(w), Owned(s.WithWorker(w, Worker.Writing(worker.i, worker.bytes, 0)), Some(w)));
  }

  /** The files with chunk `i` written in one go, not yet synced. */
  function WithChunk(c: Config, f: Files, i: nat, bytes: string): Files
    requires f.part.Some? && c.Shape().Offset(i) + |bytes| <= |f.part.value|
  {
    f.(part := Some(Overwrite(f.part.value, c.Shape().Offset(i), bytes)), durable := f.durable - {i})
  }

  lemma Writes(c: Config, o: State, s: State, w: nat, i: nat, bytes: string)
    requires c.Valid() && Leads(c, o, s) && AtWork(s, w) && s.work.workers[w] == Worker.Writing(i, bytes, 0)
    requires Sized(c, s.files) && i < c.Count() && |bytes| == c.Shape().Length(i)
    ensures c.Shape().Offset(i) + |bytes| <= |s.files.part.value|
    ensures Leads(c, o, s.WithWorker(w, Worker.Writing(i, bytes, |bytes|)).(files := WithChunk(c, s.files, i, bytes)))
  {
    ChunkInFile(c.Shape(), i);
    var t := s.WithWorker(w, Worker.Writing(i, bytes, |bytes|)).(files := WithChunk(c, s.files, i, bytes));
    assert bytes[0..|bytes|] == bytes;
    assert PwriteStep(c, s, w, |bytes|, t);
    ByWorker(c, o, s, Pwrite(w, |bytes|), t);
  }

  lemma Syncs(c: Config, o: State, s: State, w: nat)
    requires c.Valid() && Leads(c, o, s) && AtWork(s, w) && s.work.workers[w].Writing?
    requires s.work.workers[w].done == |s.work.workers[w].bytes|
    ensures Leads(c, o, s.WithWorker(w, Durable(s.work.workers[w].i)).(files := s.files.(durable := Range(c.Count()))))
  {
    ByWorker(c, o, s, Fsync(w),
             s.WithWorker(w, Durable(s.work.workers[w].i)).(files := s.files.(durable := Range(c.Count()))));
  }

  /** Claimed and needed, to written and synced. */
  lemma ReachDurable(c: Config, o: State, s: State, w: nat, i: nat, bytes: string)
    requires c.Valid() && Leads(c, o, s) && AtWork(s, w) && s.work.workers[w] == Fetching(i) && s.work.owner.None?
    requires Sized(c, s.files) && i < c.Count() && VerifiedChunk(c.manifest, c.hash, i, bytes)
    ensures c.Shape().Offset(i) + |bytes| <= |s.files.part.value|
    ensures Leads(c, o, Owned(s.WithWorker(w, Durable(i)), Some(w)).(
                          files := WithChunk(c, s.files, i, bytes).(durable := Range(c.Count()))))
  {
    Fetches(c, o, s, w, bytes);
    var s1 := s.WithWorker(w, Fetched(i, bytes));
    Locks(c, o, s1, w);
    PutTwice(s, w, Fetched(i, bytes), Worker.Writing(i, bytes, 0));
    var s2 := Owned(s.WithWorker(w, Worker.Writing(i, bytes, 0)), Some(w));
    Writes(c, o, s2, w, i, bytes);
    PutTwice(s, w, Worker.Writing(i, bytes, 0), Worker.Writing(i, bytes, |bytes|));
    var s3 := Owned(s.WithWorker(w, Worker.Writing(i, bytes, |bytes|)), Some(w)).(
                files := WithChunk(c, s.files, i, bytes));
    Syncs(c, o, s3, w);
    PutTwice(s, w, Worker.Writing(i, bytes, |bytes|), Durable(i));
  }

  // ---------------------------------------------------------------- flushing

  /** A store whose marks have been published. */
  function Saved(k: Codec, s: Store): Store {
    Store(s.memory.(dirty := false), Idle, Disk(Some(k.show(s.memory.completed)), None))
  }

  /** The four steps of a flush that has taken its snapshot. */
  lemma FlushInFour(k: Codec, s: Store) returns (s1: Store, s2: Store, s3: Store, a: StoreAction)
    requires s.flight == Snapped(s.memory.completed, s.memory.revision)
    ensures StoreStep(k, s, OpenTemporary, s1) && a.WriteTemporary? && StoreStep(k, s1, a, s2)
    ensures StoreStep(k, s2, RenameTemporary, s3) && StoreStep(k, s3, EndFlush, Saved(k, s))
  {
    var text := k.show(s.memory.completed);
    a := WriteTemporary(|text|);
    s1 := s.(flight := Flight.Writing(s.memory.completed, s.memory.revision, 0), disk := s.disk.Opened());
    assert text[0..|text|] == text && "" + text == text;
    s2 := s1.(flight := Flight.Writing(s.memory.completed, s.memory.revision, |text|), disk := s1.disk.Appended(text));
    s3 := s2.(flight := Published(s.memory.revision), disk := s2.disk.Renamed());
  }

  lemma WorkerFlushesOn(c: Config, o: State, s: State, w: nat, step: StoreAction, st: Store)
    requires c.Valid() && Leads(c, o, s) && AtWork(s, w) && s.work.workers[w].Flushing?
    requires FlushStep(step) && StoreStep(c.codec, s.Stored(), step, st)
    ensures Leads(c, o, s.WithStore(st))
  {
    ByWorker(c, o, s, WorkerFlushes(w, step), s.WithStore(st));
  }

  lemma WorkerSaves(c: Config, o: State, s: State, w: nat)
    requires c.Valid() && Leads(c, o, s) && AtWork(s, w) && s.work.workers[w].Flushing?
    requires s.flight == Snapped(s.memory.completed, s.memory.revision)
    ensures Leads(c, o, s.WithStore(Saved(c.codec, s.Stored())))
  {
    var s1, s2, s3, a := FlushInFour(c.codec, s.Stored());
    WorkerFlushesOn(c, o, s, w, OpenTemporary, s1);
    WorkerFlushesOn(c, o, s.WithStore(s1), w, a, s2);
    WorkerFlushesOn(c, o, s.WithStore(s2), w, RenameTemporary, s3);
    WorkerFlushesOn(c, o, s.WithStore(s3), w, EndFlush, Saved(c.codec, s.Stored()));
  }

  lemma SetsMark(c: Config, o: State, s: State, w: nat, i: nat)
    requires c.Valid() && Leads(c, o, s) && AtWork(s, w) && s.work.workers[w] == Durable(i) && i < |s.memory.completed|
    ensures Leads(c, o, s.WithWorker(w, Marked(i)).(memory := WithMark(s.memory, i, true)))
  {
    ByWorker(c, o, s, MarkChunk(w), s.WithWorker(w, Marked(i)).(memory := WithMark(s.memory, i, true)));
  }

  lemma Begins(c: Config, o: State, s: State, w: nat, i: nat)
    requires c.Valid() && Leads(c, o, s) && AtWork(s, w) && s.work.workers[w] == Marked(i)
    requires s.flight.Idle? && s.memory.dirty
    ensures Leads(c, o, s.WithWorker(w, Flushing(i)).(flight := Snapped(s.memory.completed, s.memory.revision)))
  {
    var st := s.Stored().(flight := Snapped(s.memory.completed, s.memory.revision));
    assert StoreStep(c.codec, s.Stored(), BeginFlush, st);
    ByWorker(c, o, s, WorkerBegins(w), s.WithStore(st).WithWorker(w, Flushing(i)));
  }

  lemma Announces(c: Config, o: State, s: State, w: nat)
    requires c.Valid() && Leads(c, o, s) && AtWork(s, w) && s.work.workers[w].Flushing? && s.flight.Idle?
    ensures Leads(c, o, Owned(s.WithWorker(w, Top), None))
  {
    var t := Owned(s.WithWorker(w, Announcing(NotRead)), None);
    ByWorker(c, o, s, WorkerFlushEnds(w), t);
    PutTwice(s, w, Announcing(NotRead), Top);
    ByWorker(c, o, t, AnnounceEnds(w), Owned(s.WithWorker(w, Top), None));
  }

  /** The memory and the resume file once chunk `i` has been marked and published. */
  function WithSaved(c: Config, s: State, i: nat): State
    requires i < |s.memory.completed|
  {
    var marks := s.memory.completed[i := true];
    s.(memory := Memory(marks, s.memory.revision + 1, false),
       files := s.files.(resume := Disk(Some(c.codec.show(marks)), None)))
  }

  /** Synced, to marked, published and back at the top of the loop. */
  lemma ReachSaved(c: Config, o: State, s: State, w: nat, i: nat)
    requires c.Valid() && Leads(c, o, s) && AtWork(s, w) && s.work.workers[w] == Durable(i) && s.flight.Idle?
    requires i < |s.memory.completed| && !s.memory.completed[i]
    ensures Leads(c, o, Owned(WithSaved(c, s, i).WithWorker(w, Top), None))
  {
    SetsMark(c, o, s, w, i);
    var memory := WithMark(s.memory, i, true);
    var s1 := s.WithWorker(w, Marked(i)).(memory := memory);
    Begins(c, o, s1, w, i);
    PutTwice(s, w, Marked(i), Flushing(i));
    var s2 := s.WithWorker(w, Flushing(i)).(memory := memory, flight := Snapped(memory.completed, memory.revision));
    WorkerSaves(c, o, s2, w);
    var s3 := WithSaved(c, s, i).WithWorker(w, Flushing(i));
    assert s3 == s2.WithStore(Saved(c.codec, s2.Stored()));
    Announces(c, o, s3, w);
    PutTwice(WithSaved(c, s, i), w, Flushing(i), Top);
  }

  // ---------------------------------------------------------------- all chunks

  /** Chunk `i` of the part file becomes the source's and the others stay. */
  lemma ChunkFromSource(c: Config, source: string, part: string, marks: Marks, i: nat)
    requires BuiltFrom(c, source) && FromSource(c, source, part, marks) && i < c.Count()
    ensures var bytes := Slice(c.Shape(), source, i);
            && VerifiedChunk(c.manifest, c.hash, i, bytes) && c.Shape().Offset(i) + |bytes| <= |part|
            && FromSource(c, source, Overwrite(part, c.Shape().Offset(i), bytes), marks[i := true])
  {
    var l, bytes := c.Shape(), Slice(c.Shape(), source, i);
    ChunkInFile(l, i);
    var written := Overwrite(part, l.Offset(i), bytes);
    forall j | 0 <= j < c.Count() && marks[i := true][j]
      ensures Slice(l, written, j) == Slice(l, source, j)
    {
      if j == i {
        assert Slice(l, written, i) == bytes;
      } else {
        WriteLeavesOtherChunks(l, part, i, l.Offset(i), bytes, j);
      }
    }
  }

  lemma SkipMarked(c: Config, source: string, base: Marks, o: State, s: State, i: nat) returns (t: State)
    requires c.Valid() && BuiltFrom(c, source) && Leads(c, o, s) && AtTop(c, source, base, s, i)
    requires i < c.Count() && s.memory.completed[i]
    ensures Leads(c, o, t) && AtTop(c, source, base, t, i + 1)
  {
    ReachClaimed(c, o, s, 0);
    t := Ahead(s.WithWorker(0, Top));
    SkippedIsAtTop(c, source, base, s, i);
  }

  lemma SkippedIsAtTop(c: Config, source: string, base: Marks, s: State, i: nat)
    requires c.workers > 0 && BuiltFrom(c, source) && AtTop(c, source, base, s, i)
    requires i < c.Count() && s.memory.completed[i]
    ensures AtTop(c, source, base, Ahead(s.WithWorker(0, Top)), i + 1)
  {
  }

  /** The state once the first worker, at the top, has fetched, written and published chunk `i`. */
  function WithFetched(c: Config, s: State, i: nat, bytes: string): State
    requires s.files.part.Some? && c.Shape().Offset(i) + |bytes| <= |s.files.part.value| && i < |s.memory.completed|
    requires |s.work.workers| > 0
  {
    var marks := s.memory.completed[i := true];
    Ahead(s.WithWorker(0, Top)).(
      memory := Memory(marks, s.memory.revision + 1, false),
      files := WithChunk(c, s.files, i, bytes).(
                 durable := Range(c.Count()), resume := Disk(Some(c.codec.show(marks)), None)))
  }

  lemma ReachFetched(c: Config, o: State, s: State, i: nat, bytes: string)
    requires c.Valid() && Leads(c, o, s) && s.phase.Working? && AllAtTop(c, s.work) && s.flight.Idle? && Sized(c, s.files)
    requires s.work.next == i < c.Count() && |s.memory.completed| == c.Count() && !s.memory.completed[i]
    requires VerifiedChunk(c.manifest, c.hash, i, bytes)
    ensures c.Shape().Offset(i) + |bytes| <= |s.files.part.value|
    ensures Leads(c, o, WithFetched(c, s, i, bytes))
  {
    ReachClaimed(c, o, s, 0);
    var s1 := Ahead(s.WithWorker(0, Fetching(i)));
    ReachDurable(c, o, s1, 0, i, bytes);
    PutTwice(s, 0, Fetching(i), Durable(i));
    var files := WithChunk(c, s.files, i, bytes).(durable := Range(c.Count()));
    var s2 := Ahead(Owned(s.WithWorker(0, Durable(i)), Some(0))).(files := files);
    ReachSaved(c, o, s2, 0, i);
    PutTwice(s, 0, Durable(i), Top);
  }

  lemma FetchUnmarked(c: Config, source: string, base: Marks, o: State, s: State, i: nat) returns (t: State)
    requires c.Valid() && BuiltFrom(c, source) && Leads(c, o, s) && AtTop(c, source, base, s, i)
    requires i < c.Count() && !s.memory.completed[i]
    ensures Leads(c, o, t) && AtTop(c, source, base, t, i + 1)
  {
    var bytes := Slice(c.Shape(), source, i);
    ChunkFromSource(c, source, s.files.part.value, s.memory.completed, i);
    ReachFetched(c, o, s, i, bytes);
    t := WithFetched(c, s, i, bytes);
  }

  /** The first worker deals with every index up to `n`. */
  lemma {:induction false} ReachIndex(c: Config, source: string, base: Marks, o: State, s: State, i: nat, n: nat)
    returns (t: State)
    requires c.Valid() && BuiltFrom(c, source) && Leads(c, o, s) && AtTop(c, source, base, s, i) && i <= n <= c.Count()
    ensures Leads(c, o, t) && AtTop(c, source, base, t, n)
    decreases n - i
  {
    if i == n {
      t := s;
    } else {
      var u;
      if s.memory.completed[i] {
        u := SkipMarked(c, source, base, o, s, i);
      } else {
        u := FetchUnmarked(c, source, base, o, s, i);
      }
      t := ReachIndex(c, source, base, o, u, i + 1, n);
    }
  }

  // ---------------------------------------------------------------- the end

  /** Every chunk is dealt with; the first `w` workers have returned. */
  ghost predicate Leaving(c: Config, source: string, s: State, w: nat)
    requires BuiltFrom(c, source)
  {
    && s.phase.Working? && Unfinished(s.files) && s.files.part == Some(source) && s.flight.Idle?
    && |s.memory.completed| == c.Count() && AllMarked(s.memory.completed)
    && s.work.coordinator.Joining? && !s.work.failed && !s.work.failure
    && w <= c.workers == |s.work.workers| && s.work.next == c.Count() + w
    && (forall v | 0 <= v < c.workers :: s.work.workers[v] == if v < w then Done(true) else Top)
  }

  lemma AllFromSource(c: Config, source: string, base: Marks, s: State)
    requires BuiltFrom(c, source) && AtTop(c, source, base, s, c.Count())
    ensures Leaving(c, source, s, 0)
  {
    SlicesDetermineFile(c.Shape(), s.files.part.value, source);
  }

  /** One worker after the other finds the chunks exhausted. */
  lemma {:induction false} ReachLeft(c: Config, source: string, o: State, s: State, w: nat) returns (t: State)
    requires c.Valid() && BuiltFrom(c, source) && Leads(c, o, s) && Leaving(c, source, s, w)
    ensures Leads(c, o, t) && Leaving(c, source, t, c.workers)
    decreases c.workers - w
  {
    if w == c.workers {
      t := s;
    } else {
      ReachClaimed(c, o, s, w);
      t := ReachLeft(c, source, o, Ahead(s.WithWorker(w, Done(true))), w + 1);
    }
  }

  /** The main thread joins the workers and stops the servers. */
  lemma ReachFinalFlush(c: Config, source: string, o: State, s: State) returns (t: State)
    requires c.Valid() && BuiltFrom(c, source) && Leads(c, o, s) && Leaving(c, source, s, c.workers)
    ensures Leads(c, o, t) && t.phase == FinalFlush(false)
    ensures t.files == s.files && t.memory == s.memory && t.flight == s.flight
  {
    var u := s.(work := s.work.(coordinator := AllThere));
    ByCoordinator(c, o, s, JoinWorkers, u);
    t := u.(phase := FinalFlush(false));
    ByCoordinator(c, o, u, StopServers, t);
  }

  lemma MainFlushesOn(c: Config, o: State, s: State, step: StoreAction, st: Store)
    requires c.Valid() && Leads(c, o, s) && s.phase == FinalFlush(true)
    requires FlushStep(step) && StoreStep(c.codec, s.Stored(), step, st)
    ensures Leads(c, o, s.WithStore(st))
  {
    ByMainFlush(c, o, s, MainFlushes(step), s.WithStore(st));
  }

  lemma MainSaves(c: Config, o: State, s: State)
    requires c.Valid() && Leads(c, o, s) && s.phase == FinalFlush(true)
    requires s.flight == Snapped(s.memory.completed, s.memory.revision)
    ensures Leads(c, o, s.WithStore(Saved(c.codec, s.Stored())))
  {
    var s1, s2, s3, a := FlushInFour(c.codec, s.Stored());
    MainFlushesOn(c, o, s, OpenTemporary, s1);
    MainFlushesOn(c, o, s.WithStore(s1), a, s2);
    MainFlushesOn(c, o, s.WithStore(s2), RenameTemporary, s3);
    MainFlushesOn(c, o, s.WithStore(s3), EndFlush, Saved(c.codec, s.Stored()));
  }

  lemma ReachBegun(c: Config, o: State, s: State) returns (t: State)
    requires c.Valid() && Leads(c, o, s) && s.phase == FinalFlush(false) && s.flight.Idle?
    ensures Leads(c, o, t) && t.phase == FinalFlush(true) && t.files == s.files && t.memory == s.memory
    ensures t.flight == if s.memory.dirty then Snapped(s.memory.completed, s.memory.revision) else Idle
  {
    var store := s.Stored();
    var st := if s.memory.dirty then store.(flight := Snapped(s.memory.completed, s.memory.revision)) else store;
    assert StoreStep(c.codec, store, BeginFlush, st);
    t := s.WithStore(st).(phase := FinalFlush(true));
    ByMainFlush(c, o, s, MainBegins, t);
  }

  /** The last flush ends, whether or not there was anything to write. */
  lemma ReachChecking(c: Config, o: State, s: State) returns (t: State)
    requires c.Valid() && Leads(c, o, s) && s.phase == FinalFlush(false) && s.flight.Idle?
    ensures Leads(c, o, t) && t.phase.Checking? && t.files.part == s.files.part && t.files.final == s.files.final
  {
    var u := ReachBegun(c, o, s);
    if u.flight.Snapped? {
      MainSaves(c, o, u);
      u := u.WithStore(Saved(c.codec, u.Stored()));
    }
    t := u.(phase := Checking);
    ByMainFlush(c, o, u, MainFlushEnds, t);
  }

  /** The whole-file check, the rename and the clean-up. */
  lemma ReachReturned(c: Config, source: string, o: State, s: State) returns (t: State)
    requires c.Valid() && BuiltFrom(c, source) && Leads(c, o, s) && s.phase.Checking? && s.files.part == Some(source)
    ensures Leads(c, o, t) && t.phase.Returned? && t.files.final == Some(source)
    ensures t.files.part.None? && t.files.resume.published.None?
  {
    var s1 := s.(phase := Renaming);
    ByEnd(c, o, s, CheckWhole, s1);
    var s2 := s1.(phase := Cleaning, files := s1.files.(part := None, final := Some(source)));
    ByEnd(c, o, s1, RenamePart, s2);
    t := s2.(phase := Returned, files := s2.files.(resume := s2.files.resume.(published := None)));
    ByEnd(c, o, s2, RemoveResume, t);
  }
}
