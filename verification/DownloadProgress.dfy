/** The worker phase cannot get stuck: whoever holds the write lock, and whoever waits for it, can go on. */
module DownloadProgress {
  import opened Base
  import opened Geometry
  import opened ResumeStore
  import opened Download
  import opened DownloadInvariant
  import opened DownloadSteps

  /** Steps that stand for an error of the storage. */
  predicate StorageFails(a: Action) {
    a.WriteFails? || a.WorkerFlushFails?
  }

  lemma FlightGoesOn(c: Config, s: State) returns (step: StoreAction, st: Store)
    requires StoreInv(c.codec, c.Count(), s.Stored()) && !s.flight.Idle?
    ensures FlushStep(step) && StoreStep(c.codec, s.Stored(), step, st)
  {
    var store := s.Stored();
    match s.flight
    case Snapped(marks, revision) =>
      step, st := OpenTemporary, store.(flight := Flight.Writing(marks, revision, 0), disk := store.disk.Opened());
    case Writing(marks, revision, done) =>
      var text := c.codec.show(marks);
      if done == |text| {
        step, st := RenameTemporary, store.(flight := Published(revision), disk := store.disk.Renamed());
      } else {
        step := WriteTemporary(|text| - done);
        st := store.(flight := Flight.Writing(marks, revision, done + (|text| - done)),
                     disk := store.disk.Appended(text[done..done + (|text| - done)]));
      }
    case Published(revision) =>
      step := EndFlush;
      st := store.(flight := Idle,
                   memory := if s.memory.revision == revision then s.memory.(dirty := false) else s.memory);
  }

  lemma FlusherGoesOn(c: Config, s: State, w: nat) returns (a: Action, s': State)
    requires c.Valid() && TrustedInv(c, s) && LockInv(s) && w < |s.work.workers|
    requires s.work.workers[w].Marked? || s.work.workers[w].Flushing?
    ensures QuietStep(c, s, a, s') || WritingStep(c, s, a, s')
    ensures !StorageFails(a) && !a.FetchFails?
  {
    if s.work.workers[w].Marked? {
      assert s.work.owner == Some(w) && s.flight.Idle?;
      var store := s.Stored();
      var st := if s.memory.dirty then store.(flight := Snapped(s.memory.completed, s.memory.revision)) else store;
      assert StoreStep(c.codec, store, BeginFlush, st);
      a, s' := WorkerBegins(w), s.WithStore(st).WithWorker(w, Flushing(s.work.workers[w].i));
    } else if s.flight.Idle? {
      var t := s.WithWorker(w, Announcing(NotRead));
      a, s' := WorkerFlushEnds(w), t.(work := t.work.(owner := None));
    } else {
      var step, st := FlightGoesOn(c, s);
      a, s' := WorkerFlushes(w, step), s.WithStore(st);
    }
  }

  lemma WriterGoesOn(c: Config, s: State, w: nat) returns (a: Action, s': State)
    requires c.Valid() && TrustedInv(c, s) && WorkersOk(c, s) && w < |s.work.workers|
    requires s.work.workers[w].Writing? || s.work.workers[w].Durable?
    ensures WritingStep(c, s, a, s') && !StorageFails(a) && !a.FetchFails?
  {
    var worker := s.work.workers[w];
    assert WorkerOk(c, s, worker);
    if worker.Durable? {
      a, s' := MarkChunk(w), s.WithWorker(w, Marked(worker.i)).(memory := WithMark(s.memory, worker.i, true));
    } else if worker.done == |worker.bytes| {
      a := Fsync(w);
      s' := s.WithWorker(w, Durable(worker.i)).(files := s.files.(durable := Range(c.Count())));
    } else {
      ChunkInFile(c.Shape(), worker.i);
      var count := |worker.bytes| - worker.done;
      var at := c.Shape().Offset(worker.i) + worker.done;
      var data := worker.bytes[worker.done..worker.done + count];
      a := Pwrite(w, count);
      s' := s.WithWorker(w, worker.(done := worker.done + count)).(
              files := s.files.(part := Some(Overwrite(s.files.part.value, at, data)),
                                durable := s.files.durable - {worker.i}));
      assert PwriteStep(c, s, w, count, s');
    }
  }

  /** A worker outside the lock; one that fetches may always give up, and one that is fetched waits for the lock. */
  lemma OutsiderGoesOn(c: Config, s: State, w: nat) returns (a: Action, s': State)
    requires c.Valid() && LoadedInv(c, s) && w < |s.work.workers|
    requires !Holds(s.work.workers[w]) && !s.work.workers[w].Done?
    requires s.work.workers[w].Fetched? ==> s.work.owner.None?
    ensures QuietStep(c, s, a, s') && !StorageFails(a) && (a.FetchFails? ==> a.w == w)
  {
    var worker := s.work.workers[w];
    match worker
    case Top => a, s' := EnterLoop(w), s.WithWorker(w, if s.work.failed then Done(false) else Claiming);
    case Claiming =>
      var t := s.WithWorker(w, Claimed(s.work.next));
      a, s' := Claim(w), t.(work := t.work.(next := (s.work.next + 1) % (MAX_UINT32 + 1)));
    case Claimed(i) =>
      a := CheckClaim(w);
      s' := s.WithWorker(w, if i >= c.Count() then Done(true) else if s.memory.completed[i] then Top else Fetching(i));
    case Fetching(i) => a, s' := FetchFails(w), s.WithWorker(w, Raised(i));
    case Fetched(i, bytes) =>
      var t := s.WithWorker(w, Worker.Writing(i, bytes, 0));
      a, s' := LockWrites(w), t.(work := t.work.(owner := Some(w)));
    case Announcing(_) => a, s' := AnnounceEnds(w), s.WithWorker(w, Top);
    case Raised(_) =>
      var t := s.WithWorker(w, Recorded);
      a, s' := RecordFailure(w), t.(work := t.work.(failure := true));
    case Recorded =>
      var t := s.WithWorker(w, Done(false));
      a, s' := SetFailed(w), t.(work := t.work.(failed := true));
    case _ => assert false;
  }

  /**
   In every reachable state of the worker phase in which some worker has not returned, a worker can take a
   step that is not a storage failure: nobody waits for a lock whose holder waits.
   */
  lemma WorkersNeverDeadlock(c: Config, states: seq<State>, actions: seq<Action>, k: nat, w: nat)
    returns (a: Action, s': State)
    requires c.Valid() && Run(c, states, actions) && k < |states|
    requires states[k].phase.Working? && states[k].work.coordinator.Joining?
    requires w < |states[k].work.workers| && !states[k].work.workers[w].Done?
    ensures QuietStep(c, states[k], a, s') || WritingStep(c, states[k], a, s')
    ensures !StorageFails(a) && (a.FetchFails? ==> a.w == w)
  {
    RunKeepsInv(c, states, actions, k);
    a, s' := SomeoneGoesOn(c, states[k], w);
  }

  lemma SomeoneGoesOn(c: Config, s: State, w: nat) returns (a: Action, s': State)
    requires c.Valid() && TrustedInv(c, s) && LockInv(s) && WorkersOk(c, s)
    requires w < |s.work.workers| && !s.work.workers[w].Done?
    ensures QuietStep(c, s, a, s') || WritingStep(c, s, a, s')
    ensures !StorageFails(a) && (a.FetchFails? ==> a.w == w)
  {
    if s.work.owner.None? || (!Holds(s.work.workers[w]) && !s.work.workers[w].Fetched?) {
      a, s' := OutsiderGoesOn(c, s, w);
    } else {
      var v := s.work.owner.value;
      if s.work.workers[v].Writing? || s.work.workers[v].Durable? {
        a, s' := WriterGoesOn(c, s, v);
      } else {
        a, s' := FlusherGoesOn(c, s, v);
      }
    }
  }
}
