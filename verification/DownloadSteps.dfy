/** Every step of the download machine keeps the invariant. */
module DownloadSteps {
  import opened Base
  import opened Counting
  import opened Geometry
  import opened ResumeText
  import opened ResumeStore
  import opened Download
  import opened DownloadInvariant

  lemma InitKeepsInv(c: Config, s: State)
    requires c.Valid() && Init(s)
    ensures Inv(c, s)
  {
  }

  // ---------------------------------------------------------------- start-up

  lemma LoadKeepsInv(c: Config, s: State, s': State)
    requires c.Valid() && Inv(c, s) && s.phase.Loading? && LoadStep(c, s, s')
    ensures Inv(c, s')
  {
  }

  lemma RevalidateKeepsInv(c: Config, s: State, s': State)
    requires c.Valid() && Inv(c, s) && RevalidateStep(c, s, s')
    ensures Inv(c, s')
  {
    var i := s.phase.next;
    if s'.memory != s.memory {
      StoreStepKeepsInv(c.codec, c.Count(), s.Stored(), Mark(i, false), s'.Stored());
    }
  }

  lemma BelowSelf(marks: Marks)
    ensures Below(marks, marks)
  {
  }

  lemma FreshWorkInv(c: Config, s: State)
    requires c.Valid() && FreshWork(c, s.work) && s.flight.Idle?
    ensures WorkInv(c, s)
  {
  }

  /** Entering the worker phase: the disk holds exactly the marks, or nothing at all. */
  lemma EnterWorking(c: Config, s: State)
    requires c.Valid() && LoadedInv(c, s) && MarksGood(c, s, c.Count()) && s.flight.Idle? && FreshWork(c, s.work)
    requires s.files.resume.published.None? || !s.memory.dirty
    ensures TrustedInv(c, s) && WorkInv(c, s)
  {
    BelowSelf(s.memory.completed);
    FreshWorkInv(c, s);
  }

  lemma StartUpKeepsInv(c: Config, s: State, a: Action, s': State)
    requires c.Valid() && Inv(c, s) && StartUpStep(c, s, a, s')
    ensures Inv(c, s')
  {
    match a
    case LoadResume => LoadKeepsInv(c, s, s');
    case RevalidateNext => RevalidateKeepsInv(c, s, s');
    case RevalidationEnds =>
      if !s.phase.changed {
        EnterWorking(c, s');
      }
    case _ =>
  }

  // ---------------------------------------------------------------- flushing

  /** What publishing does to the files: sound marks, taken below the marks in memory, stay sound. */
  lemma PublishKeepsDisk(c: Config, s: State, st: Store)
    requires c.Valid() && DiskInv(c, s.files) && LoadedInv(c, s) && MarksGood(c, s, c.Count())
    requires s.flight.Writing? ==> Below(s.flight.marks, s.memory.completed)
    requires StoreStep(c.codec, s.Stored(), RenameTemporary, st)
    ensures DiskInv(c, s.WithStore(st).files)
    ensures c.codec.load(st.disk.published.value) == Ok(s.flight.marks)
  {
    var text := c.codec.show(s.flight.marks);
    assert text[..|text|] == text;
  }

  /** A step of a flush, by whichever thread: the files stay sound and the marks stay as they are. */
  lemma FlushKeepsStore(c: Config, s: State, step: StoreAction, st: Store)
    requires c.Valid() && DiskInv(c, s.files) && LoadedInv(c, s) && MarksGood(c, s, c.Count())
    requires s.flight.Writing? ==> Below(s.flight.marks, s.memory.completed)
    requires FlushStep(step) || step.BeginFlush? || step.FailFlush?
    requires StoreStep(c.codec, s.Stored(), step, st)
    ensures var t := s.WithStore(st);
            DiskInv(c, t.files) && LoadedInv(c, t) && MarksGood(c, t, c.Count())
    ensures st.memory.completed == s.memory.completed && st.memory.revision == s.memory.revision
    ensures NothingAhead(c, s) ==> NothingAhead(c, s.WithStore(st))
  {
    StoreStepKeepsInv(c.codec, c.Count(), s.Stored(), step, st);
    BelowSelf(s.memory.completed);
    if step.RenameTemporary? {
      PublishKeepsDisk(c, s, st);
    }
  }

  lemma MainFlightKept(c: Config, s: State, step: StoreAction, st: Store, begun: bool)
    requires StoreInv(c.codec, c.Count(), s.Stored()) && MainFlight(s, begun)
    requires StoreStep(c.codec, s.Stored(), step, st) && (if step.BeginFlush? then !begun else begun && FlushStep(step))
    ensures MainFlight(s.WithStore(st), true)
  {
  }

  /** One step of a main-thread flush that stays in its phase. */
  lemma MainFlushGoesOn(c: Config, s: State, step: StoreAction, st: Store, s': State)
    requires c.Valid() && Inv(c, s) && MainFlushing(s.phase) && StoreStep(c.codec, s.Stored(), step, st)
    requires if step.BeginFlush? then !s.phase.begun else s.phase.begun && FlushStep(step)
    requires s' == s.WithStore(st).(phase := s.phase.(begun := true))
    ensures Inv(c, s')
  {
    BelowSelf(s.memory.completed);
    FlushKeepsStore(c, s, step, st);
    MainFlightKept(c, s, step, st, s.phase.begun);
    var t := s.WithStore(st);
    assert DiskInv(c, t.files) && LoadedInv(c, t) && MarksGood(c, t, c.Count()) && MainFlight(t, true);
  }

  lemma MainFlushGivesUp(c: Config, s: State, st: Store, s': State)
    requires c.Valid() && Inv(c, s) && MainFlushing(s.phase) && StoreStep(c.codec, s.Stored(), FailFlush, st)
    requires s' == s.WithStore(st).(phase := if s.phase.FinalFlush? then ErrorFlush(false) else Down)
    ensures Inv(c, s')
  {
    BelowSelf(s.memory.completed);
    FlushKeepsStore(c, s, FailFlush, st);
    var t := s.WithStore(st);
    assert DiskInv(c, t.files) && LoadedInv(c, t) && MarksGood(c, t, c.Count());
  }

  lemma MainFlushReturns(c: Config, s: State, s': State)
    requires c.Valid() && Inv(c, s) && MainFlushStep(c, s, MainFlushEnds, s')
    ensures Inv(c, s')
  {
    if s.phase.RevalidationFlush? {
      EnterWorking(c, s');
    }
  }

  lemma MainFlushKeepsInv(c: Config, s: State, a: Action, s': State)
    requires c.Valid() && Inv(c, s) && MainFlushStep(c, s, a, s')
    ensures Inv(c, s')
  {
    match a
    case MainBegins =>
      var st :| StoreStep(c.codec, s.Stored(), BeginFlush, st)
                && s' == s.WithStore(st).(phase := s.phase.(begun := true));
      MainFlushGoesOn(c, s, BeginFlush, st, s');
    case MainFlushes(step) =>
      var st :| StoreStep(c.codec, s.Stored(), step, st) && s' == s.WithStore(st);
      MainFlushGoesOn(c, s, step, st, s');
    case MainFlushFails =>
      var st :| StoreStep(c.codec, s.Stored(), FailFlush, st)
                && s' == s.WithStore(st).(phase := if s.phase.FinalFlush? then ErrorFlush(false) else Down);
      MainFlushGivesUp(c, s, st, s');
    case MainFlushEnds => MainFlushReturns(c, s, s');
    case _ =>
  }

  // ---------------------------------------------------------------- steps of a worker that change only its own state

  ghost predicate OnlyWorkChanges(s: State, s': State) {
    s' == s.(work := s'.work)
  }

  /** Worker `w` moves and nothing else of what the workers share changes, except as said. */
  ghost predicate Moves(s: State, w: nat, s': State) {
    && w < |s.work.workers| == |s'.work.workers| && OnlyWorkChanges(s, s')
    && s'.work.workers == s.work.workers[w := s'.work.workers[w]]
    && s'.work.adverts == s.work.adverts && s'.work.readers == s.work.readers
    && s'.work.coordinator == s.work.coordinator
  }

  lemma QuietMoves(c: Config, s: State, a: Action, s': State) returns (w: nat)
    requires c.manifest.Valid() && QuietStep(c, s, a, s')
    ensures w == a.w && Moves(s, w, s')
  {
    w := a.w;
  }

  /** The moving worker keeps the lock or does without it, takes it when it is free, or gives it back. */
  lemma QuietLocking(c: Config, s: State, a: Action, s': State)
    requires c.manifest.Valid() && QuietStep(c, s, a, s')
    ensures a.w < |s.work.workers| == |s'.work.workers|
    ensures var was, now := s.work.workers[a.w], s'.work.workers[a.w];
            || (s'.work.owner == s.work.owner && !Holds(was) && !Holds(now))
            || (s.work.owner.None? && s'.work.owner == Some(a.w) && !Holds(was) && Holds(now))
            || (s'.work.owner.None? && Holds(was) && !Holds(now) && (was.Flushing? ==> s.flight.Idle?))
  {
  }

  lemma QuietKeepsLock(c: Config, s: State, a: Action, s': State)
    requires c.manifest.Valid() && LockInv(s) && QuietStep(c, s, a, s')
    ensures LockInv(s')
  {
    var w := QuietMoves(c, s, a, s');
    QuietLocking(c, s, a, s');
    LockAfterMove(s, w, s');
  }

  lemma LockAfterMove(s: State, w: nat, s': State)
    requires LockInv(s) && Moves(s, w, s')
    requires var was, now := s.work.workers[w], s'.work.workers[w];
             || (s'.work.owner == s.work.owner && !Holds(was) && !Holds(now))
             || (s.work.owner.None? && s'.work.owner == Some(w) && !Holds(was) && Holds(now))
             || (s'.work.owner.None? && Holds(was) && !Holds(now) && (was.Flushing? ==> s.flight.Idle?))
    ensures LockInv(s')
  {
  }

  lemma QuietKeepsWorkers(c: Config, s: State, a: Action, s': State)
    requires c.manifest.Valid() && LoadedInv(c, s) && WorkersOk(c, s) && QuietStep(c, s, a, s')
    ensures WorkersOk(c, s')
  {
    var w := QuietMoves(c, s, a, s');
    assert WorkerOk(c, s, s.work.workers[w]);
    assert WorkerOk(c, s', s'.work.workers[w]);
    forall v | 0 <= v < |s'.work.workers| && v != w
      ensures WorkerOk(c, s', s'.work.workers[v])
    {
      assert WorkerOk(c, s, s.work.workers[v]);
    }
  }

  /** A worker about to claim has not overrun, so the counter has room: the 32-bit increment does not wrap. */
  lemma ClaimDoesNotWrap(c: Config, s: State, w: nat)
    requires c.Valid() && CounterInv(c, s) && w < |s.work.workers| && s.work.workers[w].Claiming?
    ensures s.work.next + 1 <= c.Count() + c.workers
    ensures (s.work.next + 1) % (MAX_UINT32 + 1) == s.work.next + 1
  {
    var weight := Overrun(c.Count());
    TotalAtMost(weight, s.work.workers);
    assert weight(s.work.workers[w]) == 0;
  }

  /** How a quiet step moves its worker: a claim takes the next index, any other step pursues nothing new. */
  lemma QuietSummary(c: Config, s: State, a: Action, s': State)
    requires c.Valid() && CounterInv(c, s) && QuietStep(c, s, a, s')
    ensures a.w < |s.work.workers| && Moves(s, a.w, s')
    ensures var was, now := s.work.workers[a.w], s'.work.workers[a.w];
            && (a.Claim? ==> was == Claiming && now == Claimed(s.work.next) && s'.work.next == s.work.next + 1)
            && (!a.Claim? ==> s'.work.next == s.work.next && forall i: nat | Pursues(now, i) :: Pursues(was, i))
  {
    if a.Claim? {
      ClaimDoesNotWrap(c, s, a.w);
    }
  }

  lemma ClaimsAfterMove(s: State, w: nat, s': State)
    requires ClaimInv(s) && Moves(s, w, s')
    requires var was, now := s.work.workers[w], s'.work.workers[w];
             || (now == Claimed(s.work.next) && s'.work.next == s.work.next + 1)
             || (s'.work.next == s.work.next && forall i: nat | Pursues(now, i) :: Pursues(was, i))
    ensures ClaimInv(s')
  {
  }

  lemma QuietKeepsClaims(c: Config, s: State, a: Action, s': State)
    requires c.Valid() && ClaimInv(s) && CounterInv(c, s) && QuietStep(c, s, a, s')
    ensures ClaimInv(s')
  {
    QuietSummary(c, s, a, s');
    ClaimsAfterMove(s, a.w, s');
  }

  lemma QuietKeepsCounter(c: Config, s: State, a: Action, s': State)
    requires c.Valid() && CounterInv(c, s) && QuietStep(c, s, a, s')
    ensures CounterInv(c, s')
  {
    QuietSummary(c, s, a, s');
    TotalUpdate(Overrun(c.Count()), s.work.workers, a.w, s'.work.workers[a.w]);
  }

  /** A worker that stops pursuing a chunk has found it marked, is past the last chunk, or has raised. */
  lemma QuietLetsGo(c: Config, s: State, a: Action, s': State, i: nat)
    requires c.Valid() && LoadedInv(c, s) && CounterInv(c, s) && QuietStep(c, s, a, s') && i < c.Count()
    requires a.w < |s.work.workers| && Accounts(s.work.workers[a.w], i)
    ensures Accounts(s'.work.workers[a.w], i) || s'.memory.completed[i] || s'.work.failure
  {
  }

  lemma QuietKeepsCovered(c: Config, s: State, a: Action, s': State, i: nat)
    requires c.Valid() && LoadedInv(c, s) && CounterInv(c, s) && CoverInv(c, s) && QuietStep(c, s, a, s')
    requires i < s'.work.next && i < c.Count()
    ensures Covered(s', i)
  {
    QuietSummary(c, s, a, s');
    var w := a.w;
    if i == s.work.next {
      assert Accounts(s'.work.workers[w], i);
    } else {
      assert Covered(s, i);
      if !s.work.failure && !s.memory.completed[i] {
        var v :| 0 <= v < |s.work.workers| && Accounts(s.work.workers[v], i);
        if v == w {
          QuietLetsGo(c, s, a, s', i);
        }
        assert v != w ==> Accounts(s'.work.workers[v], i);
      }
    }
  }

  lemma QuietKeepsFailureFlags(c: Config, s: State, a: Action, s': State)
    requires c.Valid() && CounterInv(c, s) && CoverInv(c, s) && ClaimInv(s) && QuietStep(c, s, a, s')
    ensures s'.work.failed ==> s'.work.failure
    ensures forall w | 0 <= w < |s'.work.workers| && s'.work.workers[w].Recorded? :: s'.work.failure
    ensures forall w | 0 <= w < |s'.work.workers| && s'.work.workers[w].Done? ::
              if s'.work.workers[w].exhausted then s'.work.next > c.Count() else s'.work.failed
  {
    QuietSummary(c, s, a, s');
    if a.CheckClaim? {
      assert Pursues(s.work.workers[a.w], s.work.workers[a.w].i);
    }
  }

  lemma QuietKeepsCover(c: Config, s: State, a: Action, s': State)
    requires c.Valid() && LoadedInv(c, s) && CounterInv(c, s) && CoverInv(c, s) && ClaimInv(s) && QuietStep(c, s, a, s')
    ensures CoverInv(c, s')
  {
    QuietKeepsFailureFlags(c, s, a, s');
    forall i: nat | i < s'.work.next && i < c.Count()
      ensures Covered(s', i)
    {
      QuietKeepsCovered(c, s, a, s', i);
    }
  }

  lemma IndicesOk(marks: Marks)
    ensures AdvertOk(marks, ListRead(Indices(marks, |marks|)))
  {
  }

  /** An announcing worker's advert is new, just read, or completed by the second read. */
  lemma QuietAdvert(c: Config, s: State, a: Action, s': State)
    requires c.manifest.Valid() && QuietStep(c, s, a, s') && a.w < |s'.work.workers|
    requires s'.work.workers[a.w].Announcing?
    ensures var marks, now := s.memory.completed, s'.work.workers[a.w].advert;
            || now.NotRead?
            || now == ListRead(Indices(marks, |marks|))
            || (a.w < |s.work.workers| && s.work.workers[a.w] == Announcing(ListRead(now.chunks))
                && now == BothRead(now.chunks, AllMarked(marks)))
  {
  }

  lemma QuietKeepsAdverts(c: Config, s: State, a: Action, s': State)
    requires c.manifest.Valid() && AdvertsOk(s) && QuietStep(c, s, a, s')
    ensures AdvertsOk(s')
  {
    var w := QuietMoves(c, s, a, s');
    if s'.work.workers[w].Announcing? {
      QuietAdvert(c, s, a, s');
      IndicesOk(s.memory.completed);
    }
  }

  lemma QuietKeepsInv(c: Config, s: State, a: Action, s': State)
    requires c.Valid() && Inv(c, s) && s.phase.Working? && s.work.coordinator.Joining? && QuietStep(c, s, a, s')
    ensures Inv(c, s')
  {
    var w := QuietMoves(c, s, a, s');
    QuietKeepsLock(c, s, a, s');
    QuietKeepsWorkers(c, s, a, s');
    QuietKeepsClaims(c, s, a, s');
    QuietKeepsCounter(c, s, a, s');
    QuietKeepsCover(c, s, a, s');
    QuietKeepsAdverts(c, s, a, s');
  }

  // ---------------------------------------------------------------- writing a piece of a chunk

  /** The write lands inside the chunk of its worker, so no other chunk changes. */
  lemma PwriteLeavesOthers(c: Config, s: State, w: nat, count: nat, s': State, j: nat)
    requires c.Valid() && PwriteStep(c, s, w, count, s') && WorkerOk(c, s, s.work.workers[w])
    requires j < c.Count() && j != s.work.workers[w].i
    ensures Sized(c, s'.files) && Slice(c.Shape(), s'.files.part.value, j) == Slice(c.Shape(), s.files.part.value, j)
    ensures Good(c, s'.files.part.value, j) <==> Good(c, s.files.part.value, j)
  {
    var worker := s.work.workers[w];
    var at := c.Shape().Offset(worker.i) + worker.done;
    var data := worker.bytes[worker.done..worker.done + count];
    WriteLeavesOtherChunks(c.Shape(), s.files.part.value, worker.i, at, data, j);
  }

  /** The written part of the chunk grows by what was written. */
  lemma PwriteExtends(c: Config, s: State, w: nat, count: nat, s': State)
    requires c.Valid() && LoadedInv(c, s) && PwriteStep(c, s, w, count, s') && WorkerOk(c, s, s.work.workers[w])
    ensures WorkerOk(c, s', s'.work.workers[w])
  {
    var worker := s.work.workers[w];
    var data := worker.bytes[worker.done..worker.done + count];
    WriteExtendsPrefix(c.Shape(), s.files.part.value, worker.i, worker.done, data);
    assert worker.bytes[..worker.done] + data == worker.bytes[..worker.done + count];
  }

  lemma PwriteKeepsDisk(c: Config, s: State, w: nat, count: nat, s': State)
    requires c.Valid() && DiskInv(c, s.files) && TrustedInv(c, s)
    requires PwriteStep(c, s, w, count, s') && WorkerOk(c, s, s.work.workers[w])
    ensures DiskInv(c, s'.files) && TrustedInv(c, s')
  {
    forall j: nat | j < c.Count() && j != s.work.workers[w].i
      ensures Sized(c, s'.files) && (Good(c, s'.files.part.value, j) <==> Good(c, s.files.part.value, j))
    {
      PwriteLeavesOthers(c, s, w, count, s', j);
    }
  }

  lemma PwriteKeepsReaders(c: Config, s: State, w: nat, count: nat, s': State)
    requires c.Valid() && ReadersOk(c, s) && PwriteStep(c, s, w, count, s') && WorkerOk(c, s, s.work.workers[w])
    ensures ReadersOk(c, s')
  {
    forall r | 0 <= r < |s'.work.readers|
      ensures ReaderOk(c, s', s'.work.readers[r])
    {
      assert ReaderOk(c, s, s.work.readers[r]);
      if s.work.readers[r].Reading? {
        PwriteLeavesOthers(c, s, w, count, s', s.work.readers[r].i);
      }
    }
  }

  lemma PwriteKeepsWorkers(c: Config, s: State, w: nat, count: nat, s': State)
    requires c.Valid() && LoadedInv(c, s) && LockInv(s) && WorkersOk(c, s) && PwriteStep(c, s, w, count, s')
    ensures WorkersOk(c, s')
  {
    assert WorkerOk(c, s, s.work.workers[w]);
    PwriteExtends(c, s, w, count, s');
    forall v | 0 <= v < |s'.work.workers| && v != w
      ensures WorkerOk(c, s', s'.work.workers[v])
    {
      assert WorkerOk(c, s, s.work.workers[v]);
      assert Holds(s.work.workers[w]) && s.work.owner == Some(w);
    }
  }

  // ---------------------------------------------------------------- what a change of one worker leaves alone

  /** Claims, coverage and the counter survive when a worker goes on with its chunk or has marked it. */
  lemma BooksKept(c: Config, s: State, w: nat, s': State)
    requires c.Valid() && ClaimInv(s) && CoverInv(c, s) && CounterInv(c, s)
    requires w < |s.work.workers| == |s'.work.workers| && s'.work.workers == s.work.workers[w := s'.work.workers[w]]
    requires s'.work.next == s.work.next && s'.work.failed == s.work.failed && s'.work.failure == s.work.failure
    requires Below(s.memory.completed, s'.memory.completed)
    requires forall i: nat | i < c.Count() && Accounts(s.work.workers[w], i) ::
               Accounts(s'.work.workers[w], i) || (i < |s'.memory.completed| && s'.memory.completed[i])
    requires forall i: nat | Pursues(s'.work.workers[w], i) :: Pursues(s.work.workers[w], i)
    requires Overrun(c.Count())(s.work.workers[w]) == Overrun(c.Count())(s'.work.workers[w])
    requires !s'.work.workers[w].Done? && !s'.work.workers[w].Recorded?
    ensures ClaimInv(s') && CoverInv(c, s') && CounterInv(c, s')
  {
    TotalUpdate(Overrun(c.Count()), s.work.workers, w, s'.work.workers[w]);
    forall i: nat | i < s'.work.next && i < c.Count()
      ensures Covered(s', i)
    {
      assert Covered(s, i);
      if !s.work.failure && !(i < |s'.memory.completed| && s'.memory.completed[i]) {
        var v :| 0 <= v < |s.work.workers| && Accounts(s.work.workers[v], i);
        assert Accounts(s'.work.workers[v], i);
      }
    }
  }

  lemma PwriteKeepsInv(c: Config, s: State, w: nat, count: nat, s': State)
    requires c.Valid() && Inv(c, s) && s.phase.Working? && PwriteStep(c, s, w, count, s')
    requires s.work.coordinator.Joining?
    ensures Inv(c, s')
  {
    assert WorkerOk(c, s, s.work.workers[w]);
    BelowSelf(s.memory.completed);
    PwriteKeepsDisk(c, s, w, count, s');
    PwriteKeepsReaders(c, s, w, count, s');
    PwriteKeepsWorkers(c, s, w, count, s');
    BooksKept(c, s, w, s');
  }

  // ---------------------------------------------------------------- fsync and mark

  lemma WholeChunkWritten(c: Config, s: State, worker: Worker)
    requires c.Valid() && WorkerOk(c, s, worker) && worker.Writing? && worker.done == |worker.bytes|
    ensures Good(c, s.files.part.value, worker.i)
  {
    var slice := Slice(c.Shape(), s.files.part.value, worker.i);
    assert slice[..worker.done] == slice;
    assert worker.bytes[..worker.done] == worker.bytes;
  }

  lemma FsyncKeepsOthers(c: Config, s: State, w: nat, s': State)
    requires c.Valid() && WorkersOk(c, s) && ReadersOk(c, s) && WritingStep(c, s, Fsync(w), s')
    ensures WorkersOk(c, s') && ReadersOk(c, s')
  {
    assert WorkerOk(c, s, s.work.workers[w]);
    WholeChunkWritten(c, s, s.work.workers[w]);
    forall v | 0 <= v < |s'.work.workers| && v != w
      ensures WorkerOk(c, s', s'.work.workers[v])
    {
      assert WorkerOk(c, s, s.work.workers[v]);
    }
    forall r | 0 <= r < |s'.work.readers|
      ensures ReaderOk(c, s', s'.work.readers[r])
    {
      assert ReaderOk(c, s, s.work.readers[r]);
    }
  }

  lemma FsyncKeepsInv(c: Config, s: State, w: nat, s': State)
    requires c.Valid() && Inv(c, s) && s.phase.Working? && s.work.coordinator.Joining?
    requires WritingStep(c, s, Fsync(w), s')
    ensures Inv(c, s')
  {
    FsyncKeepsOthers(c, s, w, s');
    BelowSelf(s.memory.completed);
    BooksKept(c, s, w, s');
  }

  lemma MarkGrows(m: Memory, i: nat)
    requires i < |m.completed|
    ensures Below(m.completed, WithMark(m, i, true).completed)
  {
  }

  lemma BelowTransitive(a: Marks, b: Marks, d: Marks)
    requires Below(a, b) && Below(b, d)
    ensures Below(a, d)
  {
  }

  lemma AdvertGrows(a: Marks, b: Marks, advert: Advert)
    requires Below(a, b) && AdvertOk(a, advert)
    ensures AdvertOk(b, advert)
  {
  }

  lemma MarkKeepsTrust(c: Config, s: State, i: nat, s': State)
    requires c.Valid() && TrustedInv(c, s) && i < c.Count() && Good(c, s.files.part.value, i) && i in s.files.durable
    requires s'.files == s.files && s'.flight == s.flight && s'.memory == WithMark(s.memory, i, true)
    ensures TrustedInv(c, s')
  {
    StoreStepKeepsInv(c.codec, c.Count(), s.Stored(), Mark(i, true), s'.Stored());
    MarkGrows(s.memory, i);
    if s.files.resume.published.Some? {
      BelowTransitive(c.codec.load(s.files.resume.published.value).value, s.memory.completed, s'.memory.completed);
    }
    if s.flight.Snapped? || s.flight.Writing? {
      BelowTransitive(s.flight.marks, s.memory.completed, s'.memory.completed);
    }
  }

  lemma MarkKeepsOthers(c: Config, s: State, w: nat, s': State)
    requires c.Valid() && WorkInv(c, s) && LoadedInv(c, s) && WritingStep(c, s, MarkChunk(w), s')
    ensures WorkersOk(c, s') && AdvertsOk(s') && ReadersOk(c, s')
  {
    var i := s.work.workers[w].i;
    MarkGrows(s.memory, i);
    forall v | 0 <= v < |s'.work.workers|
      ensures WorkerOk(c, s', s'.work.workers[v])
      ensures s'.work.workers[v].Announcing? ==> AdvertOk(s'.memory.completed, s'.work.workers[v].advert)
    {
      assert WorkerOk(c, s, s.work.workers[v]);
      assert Pursues(s.work.workers[w], i);
      if v != w {
        assert !Pursues(s.work.workers[v], i);
        if s.work.workers[v].Announcing? {
          AdvertGrows(s.memory.completed, s'.memory.completed, s.work.workers[v].advert);
        }
      }
    }
    forall k | 0 <= k < |s'.work.adverts|
      ensures AdvertOk(s'.memory.completed, s'.work.adverts[k])
    {
      AdvertGrows(s.memory.completed, s'.memory.completed, s.work.adverts[k]);
    }
    forall r | 0 <= r < |s'.work.readers|
      ensures ReaderOk(c, s', s'.work.readers[r])
    {
      assert ReaderOk(c, s, s.work.readers[r]);
    }
  }

  lemma MarkKeepsInv(c: Config, s: State, w: nat, s': State)
    requires c.Valid() && Inv(c, s) && s.phase.Working? && s.work.coordinator.Joining?
    requires WritingStep(c, s, MarkChunk(w), s')
    ensures Inv(c, s')
  {
    var i := s.work.workers[w].i;
    assert WorkerOk(c, s, s.work.workers[w]);
    MarkKeepsTrust(c, s, i, s');
    MarkKeepsOthers(c, s, w, s');
    MarkGrows(s.memory, i);
    BooksKept(c, s, w, s');
  }

  // ---------------------------------------------------------------- a worker's flush

  /** A flush changes only the dirty flag, the flight and the resume files. */
  ghost predicate SameChunks(s: State, s': State) {
    && s'.memory.completed == s.memory.completed && s'.files.part == s.files.part
    && s'.files.durable == s.files.durable && s'.work.adverts == s.work.adverts && s'.work.readers == s.work.readers
  }

  lemma SameChunksKeepOthers(c: Config, s: State, w: nat, s': State)
    requires c.Valid() && WorkInv(c, s) && SameChunks(s, s')
    requires w < |s.work.workers| == |s'.work.workers| && s'.work.workers == s.work.workers[w := s'.work.workers[w]]
    requires !PastCheck(s'.work.workers[w]) && !s'.work.workers[w].Announcing?
    ensures WorkersOk(c, s') && AdvertsOk(s') && ReadersOk(c, s')
  {
    forall v | 0 <= v < |s'.work.workers|
      ensures WorkerOk(c, s', s'.work.workers[v])
    {
      assert WorkerOk(c, s, s.work.workers[v]);
    }
    forall r | 0 <= r < |s'.work.readers|
      ensures ReaderOk(c, s', s'.work.readers[r])
    {
      assert ReaderOk(c, s, s.work.readers[r]);
    }
  }

  predicate FlushAction(a: Action) {
    a.WorkerBegins? || a.WorkerFlushes? || a.WorkerFlushFails?
  }

  lemma WorkerFlushKeepsTrust(c: Config, s: State, a: Action, s': State)
    requires c.Valid() && DiskInv(c, s.files) && TrustedInv(c, s) && FlushAction(a) && WritingStep(c, s, a, s')
    ensures DiskInv(c, s'.files) && TrustedInv(c, s') && SameChunks(s, s')
  {
    var step := if a.WorkerBegins? then BeginFlush else if a.WorkerFlushes? then a.step else FailFlush;
    var st :| StoreStep(c.codec, s.Stored(), step, st)
              && s'.files == s.WithStore(st).files && s'.memory == st.memory && s'.flight == st.flight;
    FlushKeepsStore(c, s, step, st);
    var t := s.WithStore(st);
    assert LoadedInv(c, t) && MarksGood(c, t, c.Count()) && NothingAhead(c, t) && DiskInv(c, t.files);
  }

  /** The flushing worker goes from marked through flushing, or to its exception handler. */
  lemma WorkerFlushMoves(c: Config, s: State, a: Action, s': State)
    requires FlushAction(a) && WritingStep(c, s, a, s')
    ensures a.w < |s.work.workers| == |s'.work.workers|
    ensures s'.work.workers == s.work.workers[a.w := s'.work.workers[a.w]]
    ensures s'.work == s.work.(workers := s'.work.workers, owner := s'.work.owner) && s'.phase == s.phase
    ensures s.work.workers[a.w].Marked? || s.work.workers[a.w].Flushing?
    ensures s'.work.workers[a.w].Flushing? || s'.work.workers[a.w].Raised?
  {
  }

  lemma WorkerFlushKeepsWork(c: Config, s: State, a: Action, s': State)
    requires c.Valid() && WorkInv(c, s) && s.work.coordinator.Joining? && SameChunks(s, s')
    requires FlushAction(a) && WritingStep(c, s, a, s')
    ensures WorkInv(c, s') && s'.phase == s.phase
  {
    FlushKeepsLock(c, s, a, s');
    WorkerFlushMoves(c, s, a, s');
    BelowSelf(s.memory.completed);
    SameChunksKeepOthers(c, s, a.w, s');
    BooksKept(c, s, a.w, s');
  }

  lemma WorkerFlushKeepsInv(c: Config, s: State, a: Action, s': State)
    requires c.Valid() && Inv(c, s) && s.phase.Working? && s.work.coordinator.Joining?
    requires FlushAction(a) && WritingStep(c, s, a, s')
    ensures Inv(c, s')
  {
    WorkerFlushKeepsTrust(c, s, a, s');
    WorkerFlushKeepsWork(c, s, a, s');
  }

  lemma FlushKeepsLock(c: Config, s: State, a: Action, s': State)
    requires c.Valid() && LockInv(s) && FlushAction(a) && WritingStep(c, s, a, s')
    ensures LockInv(s')
  {
  }

  lemma WritingKinds(c: Config, s: State, a: Action, s': State)
    requires WritingStep(c, s, a, s')
    ensures a.Pwrite? ==> PwriteStep(c, s, a.w, a.count, s')
    ensures a.Pwrite? || a.Fsync? || a.MarkChunk? || FlushAction(a)
  {
  }

  lemma WritingKeepsInv(c: Config, s: State, a: Action, s': State)
    requires c.Valid() && Inv(c, s) && s.phase.Working? && s.work.coordinator.Joining? && WritingStep(c, s, a, s')
    ensures Inv(c, s')
  {
    WritingKinds(c, s, a, s');
    if a.Pwrite? {
      PwriteKeepsInv(c, s, a.w, a.count, s');
    } else if a.Fsync? {
      FsyncKeepsInv(c, s, a.w, s');
    } else if a.MarkChunk? {
      MarkKeepsInv(c, s, a.w, s');
    } else {
      WorkerFlushKeepsInv(c, s, a, s');
    }
  }

  // ---------------------------------------------------------------- bystanders and the coordinator

  lemma ReadMoreKeepsReader(c: Config, s: State, r: nat, count: nat, s': State)
    requires c.Valid() && BystanderStep(c, s, ReadMore(r, count), s') && ReaderOk(c, s, s.work.readers[r])
    ensures ReaderOk(c, s', s'.work.readers[r])
  {
    var i, bytes := s.work.readers[r].i, s.work.readers[r].bytes;
    var part, from := s.files.part.value, c.Shape().Offset(i);
    var n := |bytes|;
    SliceOfSlice(part, from, from + c.Shape().Length(i), n);
    SliceOfSlice(part, from, from + c.Shape().Length(i), n + count);
    assert part[from..from + n] + part[from + n..from + n + count] == part[from..from + n + count];
  }

  lemma AdmitKeepsReader(c: Config, s: State, r: nat, i: nat, s': State)
    requires c.Valid() && LoadedInv(c, s) && BystanderStep(c, s, Admit(r, i), s')
    ensures ReaderOk(c, s', s'.work.readers[r])
  {
    ChunkInFile(c.Shape(), i);
  }

  /** The one reader a bystander step moves, if any; the others are as they were. */
  lemma BystanderReaders(c: Config, s: State, a: Action, s': State, r: nat)
    requires c.Valid() && BystanderStep(c, s, a, s') && r < |s'.work.readers|
    ensures |s'.work.readers| == |s.work.readers|
    ensures s'.work.readers[r] == s.work.readers[r] || s'.work.readers[r].NoRequest?
            || a == Admit(r, s'.work.readers[r].i) || (a.ReadMore? && a.r == r)
    ensures s'.memory == s.memory && s'.files == s.files
  {
  }

  lemma BystanderKeepsReaders(c: Config, s: State, a: Action, s': State)
    requires c.Valid() && LoadedInv(c, s) && ReadersOk(c, s) && BystanderStep(c, s, a, s')
    ensures ReadersOk(c, s')
  {
    forall r: nat | r < |s'.work.readers|
      ensures ReaderOk(c, s', s'.work.readers[r])
    {
      BystanderReaders(c, s, a, s', r);
      assert ReaderOk(c, s, s.work.readers[r]);
      if a.ReadMore? && a.r == r {
        ReadMoreKeepsReader(c, s, r, a.count, s');
      } else if a.Admit? && a.r == r {
        AdmitKeepsReader(c, s, r, a.i, s');
      } else {
        assert s'.work.readers[r].Reading? ==> s'.work.readers[r] == s.work.readers[r];
      }
    }
  }

  lemma BystanderKeepsAdverts(c: Config, s: State, a: Action, s': State)
    requires c.Valid() && AdvertsOk(s) && BystanderStep(c, s, a, s')
    ensures AdvertsOk(s')
  {
    IndicesOk(s.memory.completed);
  }

  /** Nothing the workers rely on changes. */
  ghost predicate WorkersUntouched(s: State, s': State) {
    && s'.files == s.files && s'.memory == s.memory && s'.flight == s.flight
    && s'.work.workers == s.work.workers && s'.work.next == s.work.next && s'.work.owner == s.work.owner
    && s'.work.failed == s.work.failed && s'.work.failure == s.work.failure
  }

  lemma UntouchedKeeps(c: Config, s: State, s': State)
    requires c.Valid() && WorkInv(c, s) && WorkersUntouched(s, s')
    ensures LockInv(s') && WorkersOk(c, s') && ClaimInv(s') && CoverInv(c, s') && CounterInv(c, s')
  {
    forall v | 0 <= v < |s'.work.workers|
      ensures WorkerOk(c, s', s'.work.workers[v])
    {
      assert WorkerOk(c, s, s.work.workers[v]);
    }
    forall i: nat | i < s'.work.next && i < c.Count()
      ensures Covered(s', i)
    {
      assert Covered(s, i);
    }
  }

  lemma BystanderKeepsInv(c: Config, s: State, a: Action, s': State)
    requires c.Valid() && Inv(c, s) && s.phase.Working? && BystanderStep(c, s, a, s')
    ensures Inv(c, s')
  {
    UntouchedKeeps(c, s, s');
    BystanderKeepsReaders(c, s, a, s');
    BystanderKeepsAdverts(c, s, a, s');
    assert s'.work.coordinator == s.work.coordinator && s'.phase == s.phase;
  }

  /** When every worker has returned and none failed, every chunk is marked. */
  lemma JoinedMeansComplete(c: Config, s: State)
    requires c.Valid() && LoadedInv(c, s) && CoverInv(c, s) && CounterInv(c, s) && !s.work.failure
    requires forall w | 0 <= w < |s.work.workers| :: s.work.workers[w].Done?
    ensures AllMarked(s.memory.completed)
  {
    assert s.work.workers[0].exhausted;
    forall i | 0 <= i < c.Count()
      ensures s.memory.completed[i]
    {
      assert Covered(s, i);
    }
  }

  lemma JoinKeepsInv(c: Config, s: State, s': State)
    requires c.Valid() && Inv(c, s) && s.phase.Working? && CoordinatorStep(c, s, JoinWorkers, s')
    ensures CoordinatorOk(c, s')
  {
    if !s.work.failure {
      JoinedMeansComplete(c, s);
    }
  }

  lemma CoordinatorKeepsInv(c: Config, s: State, a: Action, s': State)
    requires c.Valid() && Inv(c, s) && s.phase.Working? && CoordinatorStep(c, s, a, s')
    ensures Inv(c, s')
  {
    if !a.StopServers? {
      UntouchedKeeps(c, s, s');
      forall r | 0 <= r < |s'.work.readers|
        ensures ReaderOk(c, s', s'.work.readers[r])
      {
        assert ReaderOk(c, s, s.work.readers[r]);
      }
      if a.JoinWorkers? {
        JoinKeepsInv(c, s, s');
      }
    }
  }

  // ---------------------------------------------------------------- the end of a run, and from outside

  lemma EndKeepsInv(c: Config, s: State, a: Action, s': State)
    requires c.Valid() && Inv(c, s) && EndStep(c, s, a, s')
    ensures Inv(c, s')
  {
  }

  lemma CrashKeepsDisk(c: Config, f: Files, part: Option<string>)
    requires c.Valid() && DiskInv(c, f) && Survives(c, f, part)
    ensures DiskInv(c, f.(part := part))
  {
    var g := f.(part := part);
    if !f.damaged && f.final.None? && f.resume.published.Some? {
      var marks := c.codec.load(f.resume.published.value).value;
      forall i | 0 <= i < c.Count() && marks[i]
        ensures Good(c, part.value, i) && i in g.durable
      {
        assert Slice(c.Shape(), part.value, i) == Slice(c.Shape(), f.part.value, i);
      }
    }
  }

  lemma OutsideKeepsInv(c: Config, s: State, a: Action, s': State)
    requires c.Valid() && Inv(c, s) && OutsideStep(c, s, a, s')
    ensures Inv(c, s')
  {
    if a.Crash? {
      CrashKeepsDisk(c, s.files, a.part);
    }
  }

  /** Every step keeps the invariant. */
  lemma StepKeepsInv(c: Config, s: State, a: Action, s': State)
    requires c.Valid() && Inv(c, s) && Step(c, s, a, s')
    ensures Inv(c, s')
  {
    if StartUpStep(c, s, a, s') {
      StartUpKeepsInv(c, s, a, s');
    } else if MainFlushStep(c, s, a, s') {
      MainFlushKeepsInv(c, s, a, s');
    } else if EndStep(c, s, a, s') {
      EndKeepsInv(c, s, a, s');
    } else if OutsideStep(c, s, a, s') {
      OutsideKeepsInv(c, s, a, s');
    } else {
      WorkingKeepsInv(c, s, a, s');
    }
  }

  lemma WorkingKeepsInv(c: Config, s: State, a: Action, s': State)
    requires c.Valid() && Inv(c, s) && WorkingStep(c, s, a, s')
    ensures Inv(c, s')
  {
    if BystanderStep(c, s, a, s') {
      BystanderKeepsInv(c, s, a, s');
    } else if CoordinatorStep(c, s, a, s') {
      CoordinatorKeepsInv(c, s, a, s');
    } else if QuietStep(c, s, a, s') {
      QuietKeepsInv(c, s, a, s');
    } else {
      WritingKeepsInv(c, s, a, s');
    }
  }

  /** The invariant holds in every state of every run. */
  lemma {:induction false} RunKeepsInv(c: Config, states: seq<State>, actions: seq<Action>, k: nat)
    requires c.Valid() && Run(c, states, actions) && k < |states|
    ensures Inv(c, states[k])
  {
    if k == 0 {
      InitKeepsInv(c, states[0]);
    } else {
      RunKeepsInv(c, states, actions, k - 1);
      StepKeepsInv(c, states[k - 1], actions[k - 1], states[k]);
    }
  }
}
