/** What a worker's failure leads to: no new work, and never a normal return (src/download.cpp:290-327, 343-352). */
module DownloadFailure {
  import opened Base
  import opened Counting
  import opened Geometry
  import opened ResumeText
  import opened ResumeStore
  import opened Download
  import opened DownloadInvariant
  import opened DownloadSteps
  import opened DownloadTheorems
  import opened DownloadPaths
  import opened DownloadRecovery
  import opened DownloadOutcome

  // ---------------------------------------------------------------- a failure ends the run in error

  /** On the way out with an error, or stopped. */
  predicate Failing(s: State) {
    || s.phase.Down? || s.phase.ErrorFlush?
    || (s.phase.Working? && s.work.failure && !s.work.coordinator.AllThere? && !s.work.coordinator.SomeMissing?)
  }

  lemma FailureStays(c: Config, s: State, a: Action, s': State)
    requires c.manifest.Valid() && (QuietStep(c, s, a, s') || WritingStep(c, s, a, s') || BystanderStep(c, s, a, s'))
    ensures s.work.failure ==> s'.work.failure
    ensures s'.work.coordinator == s.work.coordinator && s'.phase == s.phase
  {
    if QuietStep(c, s, a, s') {
      QuietFailure(c, s, a, s');
    } else if WritingStep(c, s, a, s') {
      WritingFailure(c, s, a, s');
    }
  }

  lemma QuietFailure(c: Config, s: State, a: Action, s': State)
    requires c.manifest.Valid() && QuietStep(c, s, a, s')
    ensures s.work.failure ==> s'.work.failure
    ensures s'.work.coordinator == s.work.coordinator && s'.phase == s.phase
  {
    var _ := QuietMoves(c, s, a, s');
  }

  lemma WritingFailure(c: Config, s: State, a: Action, s': State)
    requires WritingStep(c, s, a, s')
    ensures s'.work.failure == s.work.failure
    ensures s'.work.coordinator == s.work.coordinator && s'.phase == s.phase
  {
  }

  lemma CoordinatorFails(c: Config, s: State, a: Action, s': State)
    requires Failing(s) && s.phase.Working? && CoordinatorStep(c, s, a, s')
    ensures Failing(s')
  {
  }

  lemma WorkingFails(c: Config, s: State, a: Action, s': State)
    requires c.manifest.Valid() && Failing(s) && WorkingStep(c, s, a, s')
    ensures Failing(s')
  {
    if CoordinatorStep(c, s, a, s') {
      CoordinatorFails(c, s, a, s');
    } else {
      FailureStays(c, s, a, s');
    }
  }

  lemma ErrorFlushFails(c: Config, s: State, a: Action, s': State)
    requires s.phase.ErrorFlush? && MainFlushStep(c, s, a, s')
    ensures Failing(s')
  {
  }

  lemma FailingStep(c: Config, s: State, a: Action, s': State)
    requires c.Valid() && Failing(s) && !s.phase.Down? && Step(c, s, a, s')
    ensures Failing(s')
  {
    if StartUpStep(c, s, a, s') {
      StartUpPhases(c, s, a, s');
      assert false;
    } else if EndStep(c, s, a, s') {
      EndPhases(c, s, a, s');
      assert false;
    } else if OutsideStep(c, s, a, s') {
      OutsidePhases(c, s, a, s');
    } else if WorkingStep(c, s, a, s') {
      WorkingFails(c, s, a, s');
    } else {
      ErrorFlushFails(c, s, a, s');
    }
  }

  lemma FailingAt(c: Config, states: seq<State>, actions: seq<Action>, k: nat)
    requires c.Valid() && Run(c, states, actions) && k < |actions| && Failing(states[k]) && !states[k].phase.Down?
    ensures Failing(states[k + 1])
  {
    FailingStep(c, states[k], actions[k], states[k + 1]);
  }

  /** A worker's failure, once recorded, leads to the error path and a stop, never to a normal return. */
  lemma {:induction false} FailureEndsInError(c: Config, states: seq<State>, actions: seq<Action>, j: nat, k: nat)
    requires c.Valid() && Run(c, states, actions) && j <= k < |states|
    requires states[j].phase.Working? && states[j].work.failure
    requires forall m | j <= m < k :: !states[m].phase.Down?
    ensures Failing(states[k])
    ensures states[k].phase.Working? || states[k].phase.ErrorFlush? || states[k].phase.Down?
  {
    if j == k {
      RunKeepsInv(c, states, actions, j);
    } else {
      FailureEndsInError(c, states, actions, j, k - 1);
      FailingAt(c, states, actions, k - 1);
    }
  }

  /** At the join, a recorded failure alone decides: without one every chunk is there. */
  lemma JoinOutcome(c: Config, states: seq<State>, actions: seq<Action>, k: nat)
    requires c.Valid() && Run(c, states, actions) && k < |actions| && actions[k].JoinWorkers?
    ensures states[k + 1].work.coordinator == if states[k].work.failure then Broken else AllThere
  {
    RunKeepsInv(c, states, actions, k + 1);
    JoinedAs(c, states[k], states[k + 1]);
  }

  lemma JoinedAs(c: Config, s: State, s': State)
    requires c.Valid() && Step(c, s, JoinWorkers, s') && Inv(c, s')
    ensures s'.work.coordinator == if s.work.failure then Broken else AllThere
  {
    assert CoordinatorStep(c, s, JoinWorkers, s');
  }

  // ---------------------------------------------------------------- a failure stops the claiming

  function AboutToClaim(w: Worker): nat {
    if w.Claiming? then 1 else 0
  }

  /** Indices claimed so far and about to be claimed. */
  function Claimable(s: State): nat {
    s.work.next + Total(AboutToClaim, s.work.workers)
  }

  lemma ClaimableQuiet(c: Config, s: State, a: Action, s': State)
    requires c.Valid() && CounterInv(c, s) && s.work.failed && QuietStep(c, s, a, s')
    ensures s'.work.failed && Claimable(s') <= Claimable(s)
  {
    QuietSummary(c, s, a, s');
    TotalUpdate(AboutToClaim, s.work.workers, a.w, s'.work.workers[a.w]);
    QuietClaims(c, s, a, s');
  }

  lemma QuietClaims(c: Config, s: State, a: Action, s': State)
    requires c.Valid() && s.work.failed && QuietStep(c, s, a, s')
    ensures s'.work.failed && a.w < |s.work.workers| == |s'.work.workers|
    ensures !s'.work.workers[a.w].Claiming? && (a.Claim? ==> s.work.workers[a.w].Claiming?)
  {
  }

  lemma ClaimableWriting(c: Config, s: State, a: Action, s': State)
    requires s.work.failed && WritingStep(c, s, a, s')
    ensures s'.work.failed && Claimable(s') == Claimable(s)
  {
    WritingMoves(c, s, a, s');
    TotalUpdate(AboutToClaim, s.work.workers, a.w, s'.work.workers[a.w]);
  }

  lemma WritingMoves(c: Config, s: State, a: Action, s': State)
    requires WritingStep(c, s, a, s')
    ensures s'.work.failed == s.work.failed && s'.work.next == s.work.next && a.w < |s.work.workers| == |s'.work.workers|
    ensures s'.work.workers == s.work.workers[a.w := s'.work.workers[a.w]]
    ensures !s.work.workers[a.w].Claiming? && !s'.work.workers[a.w].Claiming?
  {
  }

  lemma BystanderClaims(c: Config, s: State, a: Action, s': State)
    requires c.manifest.Valid() && (BystanderStep(c, s, a, s') || CoordinatorStep(c, s, a, s'))
    ensures s'.work.failed == s.work.failed && s'.work.next == s.work.next && s'.work.workers == s.work.workers
  {
  }

  lemma ClaimableStep(c: Config, s: State, a: Action, s': State)
    requires c.Valid() && CounterInv(c, s) && s.work.failed && WorkingStep(c, s, a, s')
    ensures s'.work.failed && Claimable(s') <= Claimable(s)
  {
    if BystanderStep(c, s, a, s') || CoordinatorStep(c, s, a, s') {
      BystanderClaims(c, s, a, s');
    } else if QuietStep(c, s, a, s') {
      ClaimableQuiet(c, s, a, s');
    } else {
      ClaimableWriting(c, s, a, s');
    }
  }

  lemma ClaimableAt(c: Config, states: seq<State>, actions: seq<Action>, k: nat)
    requires c.Valid() && Run(c, states, actions) && k < |actions|
    requires states[k].phase.Working? && states[k + 1].phase.Working? && states[k].work.failed
    ensures states[k + 1].work.failed && Claimable(states[k + 1]) <= Claimable(states[k])
  {
    RunKeepsInv(c, states, actions, k);
    StepKinds(c, states[k], actions[k], states[k + 1]);
    ClaimableStep(c, states[k], actions[k], states[k + 1]);
  }

  /** Between `j` and `k` the failure flag stays and nothing becomes claimable. */
  ghost predicate Settles(states: seq<State>, j: nat, k: nat) {
    && j <= k < |states|
    && forall m | j <= m < k :: states[m].work.failed ==>
         states[m + 1].work.failed && Claimable(states[m + 1]) <= Claimable(states[m])
  }

  lemma {:induction false} ClaimableFalls(states: seq<State>, j: nat, k: nat)
    requires Settles(states, j, k) && states[j].work.failed
    ensures states[k].work.failed && Claimable(states[k]) <= Claimable(states[j])
  {
    if j < k {
      ClaimableFalls(states, j, k - 1);
    }
  }

  /** Once a failure is flagged, only workers already past the test claim, and each of them once. */
  lemma FailureStopsClaims(c: Config, states: seq<State>, actions: seq<Action>, j: nat, k: nat)
    requires c.Valid() && Run(c, states, actions) && j <= k < |states|
    requires states[j].work.failed && forall m | j <= m <= k :: states[m].phase.Working?
    ensures states[k].work.next <= states[j].work.next + Total(AboutToClaim, states[j].work.workers)
    ensures states[k].work.next <= states[j].work.next + c.workers
  {
    forall m | j <= m < k
      ensures states[m].work.failed ==>
                states[m + 1].work.failed && Claimable(states[m + 1]) <= Claimable(states[m])
    {
      if states[m].work.failed {
        ClaimableAt(c, states, actions, m);
      }
    }
    ClaimableFalls(states, j, k);
    SameCrew(c, states, actions, j);
    TotalAtMost(AboutToClaim, states[j].work.workers);
  }

  lemma SameCrew(c: Config, states: seq<State>, actions: seq<Action>, k: nat)
    requires c.Valid() && Run(c, states, actions) && k < |states| && states[k].phase.Working?
    ensures |states[k].work.workers| == c.workers
  {
    RunKeepsInv(c, states, actions, k);
  }

  // ---------------------------------------------------------------- a failure with every chunk marked

  lemma FlushFails(c: Config, o: State, s: State, w: nat, i: nat)
    requires c.Valid() && Leads(c, o, s) && AtWork(s, w) && s.work.workers[w] == Flushing(i) && s.flight.Snapped?
    ensures Leads(c, o, Owned(s.WithWorker(w, Raised(i)), None).(flight := Idle))
  {
    var st := s.Stored().(flight := Idle);
    assert StoreStep(c.codec, s.Stored(), FailFlush, st);
    ByWorker(c, o, s, WorkerFlushFails(w), Owned(s.WithStore(st).WithWorker(w, Raised(i)), None));
  }

  lemma Records(c: Config, o: State, s: State, w: nat)
    requires c.Valid() && Leads(c, o, s) && AtWork(s, w) && s.work.workers[w].Raised?
    ensures var t := s.WithWorker(w, Recorded); Leads(c, o, t.(work := t.work.(failure := true)))
  {
    var t := s.WithWorker(w, Recorded);
    ByWorker(c, o, s, RecordFailure(w), t.(work := t.work.(failure := true)));
  }

  /** Written, synced and marked, but the flush fails. */
  lemma ReachFailure(c: Config, o: State, s: State, w: nat, i: nat) returns (t: State)
    requires c.Valid() && Leads(c, o, s) && AtWork(s, w) && s.work.workers[w] == Durable(i) && s.flight.Idle?
    requires i < |s.memory.completed| && !s.memory.completed[i]
    ensures Leads(c, o, t) && t.phase.Working? && t.work.failure
    ensures t.memory.completed == s.memory.completed[i := true]
  {
    SetsMark(c, o, s, w, i);
    var s1 := s.WithWorker(w, Marked(i)).(memory := WithMark(s.memory, i, true));
    Begins(c, o, s1, w, i);
    var s2 := s1.WithWorker(w, Flushing(i)).(flight := Snapped(s1.memory.completed, s1.memory.revision));
    FlushFails(c, o, s2, w, i);
    var s3 := Owned(s2.WithWorker(w, Raised(i)), None).(flight := Idle);
    Records(c, o, s3, w);
    var s4 := s3.WithWorker(w, Recorded);
    t := s4.(work := s4.work.(failure := true));
  }

  /** The first worker has claimed the last chunk, fetched, written and synced it. */
  lemma ReachLastDurable(c: Config, source: string, base: Marks, o: State, s: State, i: nat) returns (t: State)
    requires c.Valid() && BuiltFrom(c, source) && Leads(c, o, s) && AtTop(c, source, base, s, i)
    requires i < c.Count() && !s.memory.completed[i]
    ensures Leads(c, o, t) && AtWork(t, 0) && t.work.workers[0] == Durable(i) && t.flight.Idle?
    ensures t.memory == s.memory
  {
    var bytes := Slice(c.Shape(), source, i);
    ChunkFromSource(c, source, s.files.part.value, s.memory.completed, i);
    ReachClaimed(c, o, s, 0);
    var s1 := Ahead(s.WithWorker(0, Fetching(i)));
    ReachDurable(c, o, s1, 0, i, bytes);
    t := Owned(s1.WithWorker(0, Durable(i)), Some(0)).(
           files := WithChunk(c, s1.files, i, bytes).(durable := Range(c.Count())));
  }

  /**
   A failure can come with every chunk marked: the last one is written, synced and marked, and then its flush
   fails.  By the theorem above such a run still ends in error.
   */
  lemma FailsWithEverythingMarked(c: Config, source: string, port: nat)
    returns (states: seq<State>, actions: seq<Action>)
    requires c.Valid() && BuiltFrom(c, source) && c.Count() > 0
    requires c.MayBind(port) && c.Announces(MarksOf([], c.Count()), port)
    ensures Run(c, states, actions)
    ensures var t := states[|actions|]; t.phase.Working? && t.work.failure && AllMarked(t.memory.completed)
  {
    var o := State(Down, EmptyFiles(), NoMemory(), Idle, NoWork());
    InitKeepsInv(c, o);
    var base, s1 := ReachStart(c, source, o, port);
    var last := c.Count() - 1;
    var s2 := ReachIndex(c, source, base, o, s1, 0, last);
    var s3 := ReachLastDurable(c, source, base, o, s2, last);
    var t := ReachFailure(c, o, s3, 0, last);
    states, actions := ReachedByRun(c, o, t);
  }
}
