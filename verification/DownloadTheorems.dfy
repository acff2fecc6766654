/**
 What the download machine guarantees over whole runs: any number of workers, any interleaving, any sequence
 of crashes and restarts, and, where not excluded, any damage to the files between them.
 */
module DownloadTheorems {
  import opened Base
  import opened Counting
  import opened Crypto
  import opened Geometry
  import opened Manifests
  import opened ChunkLists
  import opened Announcements
  import opened ResumeText
  import opened ResumeStore
  import opened PeerService
  import opened Download
  import opened DownloadInvariant
  import opened DownloadSteps

  // ---------------------------------------------------------------- the configuration the program uses

  /** What announces: the names and the resume file belong to the manifest's swarm id. */
  function ConfigFor(m: Manifest, hash: Hash, workers: nat, token: string, peer: string, listenPort: nat): Config
    requires m.Valid()
  {
    var swarm := SwarmId(m, hash);
    Config(m, hash, FileCodec(swarm, |m.chunkHashes|), workers,
           (chunks: seq<nat>, hasAll: bool, port: nat) => Sendable(Advertisement(token, swarm, peer, port, chunks, hasAll)), listenPort)
  }

  /** With the real resume format, all the theorems below need is room for the claim counter. */
  lemma ConfigForIsValid(m: Manifest, hash: Hash, workers: nat, token: string, peer: string, listenPort: nat)
    requires m.Valid() && ProducesDigests(hash) && listenPort <= MAX_UINT16
    ensures ConfigFor(m, hash, workers, token, peer, listenPort).Valid() <==> 0 < workers <= MAX_UINT32 - |m.chunkHashes|
  {
    assert IsSha256Hex(SwarmId(m, hash));
    FileCodecFaithful(SwarmId(m, hash), |m.chunkHashes|);
  }

  // ---------------------------------------------------------------- marks

  /** From the end of revalidation until the part file is renamed away. */
  predicate Revalidated(p: Phase) {
    p.RevalidationFlush? || p.Working? || p.FinalFlush? || p.Checking? || p.Renaming? || p.ErrorFlush?
  }

  /** Once marks have been revalidated, every marked chunk is right in the part file. */
  lemma MarkedChunksAreVerified(c: Config, states: seq<State>, actions: seq<Action>, k: nat, i: nat)
    requires c.Valid() && Run(c, states, actions) && k < |states| && Revalidated(states[k].phase)
    ensures |states[k].memory.completed| == c.Count()
    ensures i < c.Count() && states[k].memory.completed[i] ==>
              states[k].files.part.Some? && Good(c, states[k].files.part.value, i)
  {
    RunKeepsInv(c, states, actions, k);
  }

  /**
   At most one flush is in flight, whoever begins one finds none, and a clean store is exactly what the disk
   would load as.
   */
  lemma OneFlushAtATime(c: Config, states: seq<State>, actions: seq<Action>, k: nat)
    requires c.Valid() && Run(c, states, actions) && k < |states| && Revalidated(states[k].phase)
    ensures !states[k].memory.dirty ==> SavedAs(c.codec, states[k].files.resume, states[k].memory.completed)
    ensures forall w, v | 0 <= w < |states[k].work.workers| && 0 <= v < |states[k].work.workers| ::
              states[k].phase.Working? && Holds(states[k].work.workers[w]) && Holds(states[k].work.workers[v]) ==> w == v
    ensures states[k].phase.Working? && !states[k].flight.Idle? ==>
              exists w :: 0 <= w < |states[k].work.workers| && states[k].work.workers[w].Flushing?
    ensures forall w | 0 <= w < |states[k].work.workers| ::
              states[k].phase.Working? && states[k].work.workers[w].Marked? ==> states[k].flight.Idle?
    ensures MainFlushing(states[k].phase) && !states[k].phase.begun ==> states[k].flight.Idle?
  {
    RunKeepsInv(c, states, actions, k);
  }

  // ---------------------------------------------------------------- crashes

  /**
   At every point of a run free of outside damage, the published resume file loads, and each chunk it lists
   was fsynced and is right, in the part file as it is and in whatever a crash here may leave of it.
   */
  lemma PublishedChunksAreDurable(c: Config, states: seq<State>, actions: seq<Action>, k: nat, after: Option<string>)
    requires c.Valid() && Run(c, states, actions) && k < |states|
    requires var f := states[k].files; !f.damaged && f.final.None? && f.resume.published.Some?
    requires Survives(c, states[k].files, after)
    ensures var f := states[k].files;
            var loaded := c.codec.load(f.resume.published.value);
            && loaded.Ok? && |loaded.value| == c.Count() && f.part.Some? && after.Some?
            && forall i | 0 <= i < c.Count() && loaded.value[i] ::
                 i in f.durable && Good(c, f.part.value, i) && Good(c, after.value, i)
  {
    RunKeepsInv(c, states, actions, k);
    var f := states[k].files;
    CrashKeepsDisk(c, f, after);
    assert PublishedSound(c, f) && PublishedSound(c, f.(part := after));
  }

  lemma StartUpPhases(c: Config, s: State, a: Action, s': State)
    requires c.manifest.Valid() && StartUpStep(c, s, a, s')
    ensures s.phase.Down? || s.phase.Starting? || s.phase.Sizing? || s.phase.Loading? || s.phase.Revalidating?
    ensures s.phase.Down? || s.phase.Starting? ==> a.Start? || a.Examine? || a.Abort?
    ensures !a.CheckWhole?
  {
  }

  lemma EndPhases(c: Config, s: State, a: Action, s': State)
    requires EndStep(c, s, a, s')
    ensures s.phase.Checking? || s.phase.Renaming? || s.phase.Cleaning? || s.phase.Returned?
  {
  }

  lemma OutsidePhases(c: Config, s: State, a: Action, s': State)
    requires c.manifest.Valid() && OutsideStep(c, s, a, s')
    ensures s'.phase.Down? && !a.CheckWhole?
  {
  }

  lemma MainFlushPhases(c: Config, s: State, a: Action, s': State)
    requires MainFlushStep(c, s, a, s')
    ensures MainFlushing(s.phase)
  {
  }

  /** Which kinds of step a phase allows. */
  lemma StepKinds(c: Config, s: State, a: Action, s': State)
    requires c.manifest.Valid() && Step(c, s, a, s')
    ensures s.phase.Working? && s'.phase.Working? ==> WorkingStep(c, s, a, s')
    ensures s.phase.Checking? ==> EndStep(c, s, a, s') || OutsideStep(c, s, a, s')
    ensures s.phase.Down? || s.phase.Starting? ==> StartUpStep(c, s, a, s') || OutsideStep(c, s, a, s')
  {
    if StartUpStep(c, s, a, s') {
      StartUpPhases(c, s, a, s');
    } else if MainFlushStep(c, s, a, s') {
      MainFlushPhases(c, s, a, s');
    } else if EndStep(c, s, a, s') {
      EndPhases(c, s, a, s');
    } else if OutsideStep(c, s, a, s') {
      OutsidePhases(c, s, a, s');
    }
  }

  // What each kind of step may do to the final file and to the record of damage.

  ghost predicate SameHistory(s: State, s': State) {
    s'.files.final == s.files.final && s'.files.damaged == s.files.damaged
  }

  lemma StartUpKeepsHistory(c: Config, s: State, a: Action, s': State)
    requires c.manifest.Valid() && StartUpStep(c, s, a, s')
    ensures SameHistory(s, s') && s'.files.resume == s.files.resume && !a.RenamePart? && !a.Damage?
  {
  }

  lemma MainFlushKeepsHistory(c: Config, s: State, a: Action, s': State)
    requires MainFlushStep(c, s, a, s')
    ensures SameHistory(s, s') && !a.RenamePart? && !a.Damage?
  {
  }

  lemma QuietKeepsHistory(c: Config, s: State, a: Action, s': State)
    requires c.manifest.Valid() && QuietStep(c, s, a, s')
    ensures s'.files == s.files && !a.RenamePart? && !a.Damage?
  {
    var _ := QuietMoves(c, s, a, s');
  }

  lemma WritingKeepsHistory(c: Config, s: State, a: Action, s': State)
    requires WritingStep(c, s, a, s')
    ensures SameHistory(s, s') && !a.RenamePart? && !a.Damage?
    ensures FlushAction(a) || s'.files.resume == s.files.resume
  {
  }

  lemma BystanderKeepsHistory(c: Config, s: State, a: Action, s': State)
    requires c.manifest.Valid() && (BystanderStep(c, s, a, s') || CoordinatorStep(c, s, a, s'))
    ensures s'.files == s.files && s'.work.next == s.work.next && !a.RenamePart? && !a.Damage? && !a.Claim?
  {
  }

  lemma WorkingKeepsHistory(c: Config, s: State, a: Action, s': State)
    requires c.manifest.Valid() && WorkingStep(c, s, a, s')
    ensures SameHistory(s, s') && !a.RenamePart? && !a.Damage?
    ensures s'.files.resume == s.files.resume || WritingStep(c, s, a, s')
  {
    if BystanderStep(c, s, a, s') || CoordinatorStep(c, s, a, s') {
      BystanderKeepsHistory(c, s, a, s');
    } else if QuietStep(c, s, a, s') {
      QuietKeepsHistory(c, s, a, s');
    } else {
      WritingKeepsHistory(c, s, a, s');
    }
  }

  /** Only the rename and outside damage touch the final file; damage is never forgotten. */
  lemma StepHistory(c: Config, s: State, a: Action, s': State)
    requires c.manifest.Valid() && Step(c, s, a, s')
    ensures a.RenamePart? ==> EndStep(c, s, a, s')
    ensures a.Damage? ==> s'.files.damaged
    ensures !a.RenamePart? && !a.Damage? ==> SameHistory(s, s')
    ensures s.files.damaged ==> s'.files.damaged
  {
    if StartUpStep(c, s, a, s') {
      StartUpKeepsHistory(c, s, a, s');
    } else if MainFlushStep(c, s, a, s') {
      MainFlushKeepsHistory(c, s, a, s');
    } else if WorkingStep(c, s, a, s') {
      WorkingKeepsHistory(c, s, a, s');
    }
  }

  /** What the published resume file lists. */
  ghost function Listed(c: Config, d: Disk): set<nat> {
    if d.published.None? then {} else
      var loaded := c.codec.load(d.published.value);
      if loaded.Err? then {} else set i: nat | i < |loaded.value| && loaded.value[i]
  }

  lemma RenameKeepsListed(c: Config, s: State, st: Store)
    requires c.Valid() && TrustedInv(c, s) && StoreStep(c.codec, s.Stored(), RenameTemporary, st)
    ensures Listed(c, s.files.resume) <= Listed(c, st.disk)
  {
    var text := c.codec.show(s.flight.marks);
    assert text[..|text|] == text;
    assert c.codec.load(st.disk.published.value) == Ok(s.flight.marks);
  }

  lemma FlushKeepsListed(c: Config, s: State, step: StoreAction, st: Store)
    requires c.Valid() && TrustedInv(c, s) && StoreStep(c.codec, s.Stored(), step, st)
    ensures Listed(c, s.files.resume) <= Listed(c, st.disk)
  {
    if step.RenameTemporary? {
      RenameKeepsListed(c, s, st);
    } else {
      StoreStepKeepsInv(c.codec, c.Count(), s.Stored(), step, st);
    }
  }

  lemma MainFlushKeepsListed(c: Config, s: State, a: Action, s': State)
    requires c.Valid() && Inv(c, s) && MainFlushStep(c, s, a, s') && !s'.files.damaged
    ensures Listed(c, s.files.resume) <= Listed(c, s'.files.resume)
  {
    MainFlushKeepsHistory(c, s, a, s');
    if !a.MainFlushEnds? {
      var step := if a.MainBegins? then BeginFlush else if a.MainFlushes? then a.step else FailFlush;
      var st :| StoreStep(c.codec, s.Stored(), step, st) && s'.files.resume == st.disk;
      FlushKeepsListed(c, s, step, st);
    }
  }

  lemma WritingKeepsListed(c: Config, s: State, a: Action, s': State)
    requires c.Valid() && Inv(c, s) && s.phase.Working? && WritingStep(c, s, a, s')
    ensures Listed(c, s.files.resume) <= Listed(c, s'.files.resume)
  {
    WritingKeepsHistory(c, s, a, s');
    if FlushAction(a) {
      var step := if a.WorkerBegins? then BeginFlush else if a.WorkerFlushes? then a.step else FailFlush;
      var st :| StoreStep(c.codec, s.Stored(), step, st) && s'.files.resume == st.disk;
      FlushKeepsListed(c, s, step, st);
    }
  }

  lemma StepKeepsListed(c: Config, s: State, a: Action, s': State)
    requires c.Valid() && Inv(c, s) && Step(c, s, a, s') && !s'.files.damaged && s'.files.final.None?
    ensures Listed(c, s.files.resume) <= Listed(c, s'.files.resume)
  {
    if MainFlushStep(c, s, a, s') {
      MainFlushKeepsListed(c, s, a, s');
    } else if WorkingStep(c, s, a, s') {
      WorkingKeepsHistory(c, s, a, s');
      if WritingStep(c, s, a, s') {
        WritingKeepsListed(c, s, a, s');
      }
    } else if StartUpStep(c, s, a, s') {
      StartUpKeepsHistory(c, s, a, s');
    } else {
      assert s'.files.resume == s.files.resume;
    }
  }

  /** Progress is never lost: without outside damage, what was once listed stays listed until the file is whole. */
  lemma {:induction false} ProgressIsKept(c: Config, states: seq<State>, actions: seq<Action>, j: nat, k: nat)
    requires c.Valid() && Run(c, states, actions) && j <= k < |states|
    requires !states[k].files.damaged && states[k].files.final.None?
    ensures Listed(c, states[j].files.resume) <= Listed(c, states[k].files.resume)
  {
    if j < k {
      RunKeepsInv(c, states, actions, k - 1);
      StepHistory(c, states[k - 1], actions[k - 1], states[k]);
      ProgressIsKept(c, states, actions, j, k - 1);
      StepKeepsListed(c, states[k - 1], actions[k - 1], states[k]);
    }
  }

  // ---------------------------------------------------------------- restarts

  /** Left alone, a start finds fault with the files exactly when the part file was created and never sized. */
  lemma FilesRefusedIffShort(c: Config, states: seq<State>, actions: seq<Action>, k: nat)
    requires c.Valid() && Run(c, states, actions) && k < |actions| && actions[k].Examine?
    requires !states[k].files.damaged
    ensures states[k + 1].phase.Down? <==>
              states[k].files.final.None? && states[k].files.part == Some("") && c.manifest.fileSize > 0
  {
    RunKeepsInv(c, states, actions, k);
    assert Step(c, states[k], actions[k], states[k + 1]);
  }

  /** Left alone, loading never fails and revalidation finds nothing to discard. */
  lemma RestartTrustsEveryMark(c: Config, states: seq<State>, actions: seq<Action>, k: nat)
    requires c.Valid() && Run(c, states, actions) && k < |actions| && !states[k].files.damaged
    ensures actions[k].LoadResume? ==>
              && states[k + 1].phase == Revalidating(0, false)
              && forall i: nat :: i in Listed(c, states[k].files.resume) <==>
                   i < c.Count() && states[k + 1].memory.completed[i]
    ensures actions[k].RevalidateNext? ==> states[k + 1].memory == states[k].memory
    ensures actions[k].RevalidationEnds? ==> states[k + 1].phase.Working?
  {
    RunKeepsInv(c, states, actions, k);
    RunKeepsInv(c, states, actions, k + 1);
    assert Step(c, states[k], actions[k], states[k + 1]);
  }

  // ---------------------------------------------------------------- claims

  /** States `from` to `until` belong to one worker phase, which starts with the counter at zero. */
  ghost predicate Session(states: seq<State>, from: nat, until: nat) {
    && from <= until < |states| && states[from].work.next == 0
    && forall k | from <= k <= until :: states[k].phase.Working?
  }

  ghost predicate Claims(states: seq<State>, actions: seq<Action>, k: nat, i: nat) {
    k < |actions| && k < |states| && actions[k].Claim? && states[k].work.next == i
  }

  /** The counter moves only by claims, one at a time, and never wraps. */
  lemma CounterStep(c: Config, s: State, a: Action, s': State)
    requires c.Valid() && CounterInv(c, s) && WorkingStep(c, s, a, s')
    ensures s'.work.next == if a.Claim? then s.work.next + 1 else s.work.next
  {
    if BystanderStep(c, s, a, s') || CoordinatorStep(c, s, a, s') {
      BystanderKeepsHistory(c, s, a, s');
    } else if QuietStep(c, s, a, s') {
      QuietSummary(c, s, a, s');
    } else {
      WritingKeepsCounter(c, s, a, s');
    }
  }

  lemma WritingKeepsCounter(c: Config, s: State, a: Action, s': State)
    requires WritingStep(c, s, a, s')
    ensures s'.work.next == s.work.next && !a.Claim?
  {
  }

  lemma CounterAt(c: Config, states: seq<State>, actions: seq<Action>, k: nat)
    requires c.Valid() && Run(c, states, actions) && k < |actions|
    requires states[k].phase.Working? && states[k + 1].phase.Working?
    ensures states[k + 1].work.next == if actions[k].Claim? then states[k].work.next + 1 else states[k].work.next
  {
    RunKeepsInv(c, states, actions, k);
    StepKinds(c, states[k], actions[k], states[k + 1]);
    CounterStep(c, states[k], actions[k], states[k + 1]);
  }

  /** From `from` to `until` every claim moves the counter by one and nothing else moves it. */
  ghost predicate Counts(states: seq<State>, actions: seq<Action>, from: nat, until: nat) {
    && from <= until < |states| && until <= |actions|
    && forall k | from <= k < until ::
         states[k + 1].work.next == if actions[k].Claim? then states[k].work.next + 1 else states[k].work.next
  }

  lemma SessionCounts(c: Config, states: seq<State>, actions: seq<Action>, from: nat, until: nat)
    requires c.Valid() && Run(c, states, actions) && Session(states, from, until)
    ensures Counts(states, actions, from, until)
  {
    forall k | from <= k < until
      ensures states[k + 1].work.next == if actions[k].Claim? then states[k].work.next + 1 else states[k].work.next
    {
      CounterAt(c, states, actions, k);
    }
  }

  lemma {:induction false} CounterGrows(states: seq<State>, actions: seq<Action>, j: nat, k: nat)
    requires Counts(states, actions, j, k)
    ensures states[j].work.next <= states[k].work.next
    ensures j < k && actions[j].Claim? ==> states[j].work.next < states[k].work.next
  {
    if j < k {
      CounterGrows(states, actions, j, k - 1);
    }
  }

  lemma {:induction false} EveryValueClaimed(
      states: seq<State>, actions: seq<Action>, from: nat, until: nat, i: nat) returns (k: nat)
    requires Counts(states, actions, from, until) && states[from].work.next <= i < states[until].work.next
    ensures from <= k < until && Claims(states, actions, k, i)
    decreases until
  {
    if i < states[until - 1].work.next {
      k := EveryValueClaimed(states, actions, from, until - 1, i);
    } else {
      k := until - 1;
    }
  }

  /** The workers have all returned and none of them failed. */
  ghost predicate JoinedWithoutFailure(s: State) {
    && s.phase.Working? && s.work.coordinator.Joining? && !s.work.failure
    && forall w | 0 <= w < |s.work.workers| :: s.work.workers[w].Done?
  }

  /** If no worker fails, every chunk index is claimed exactly once, and every chunk is marked when they are joined. */
  lemma EveryChunkClaimedOnce(c: Config, states: seq<State>, actions: seq<Action>, from: nat, until: nat, i: nat)
    requires c.Valid() && Run(c, states, actions) && Session(states, from, until) && i < c.Count()
    requires JoinedWithoutFailure(states[until])
    ensures exists k :: from <= k < until && Claims(states, actions, k, i)
                        && forall j | from <= j < until && Claims(states, actions, j, i) :: j == k
    ensures AllMarked(states[until].memory.completed)
  {
    RunKeepsInv(c, states, actions, until);
    JoinedMeansComplete(c, states[until]);
    assert states[until].work.workers[0].Done? && states[until].work.workers[0].exhausted;
    SessionCounts(c, states, actions, from, until);
    var k := EveryValueClaimed(states, actions, from, until, i);
    forall j | from <= j < until && Claims(states, actions, j, i)
      ensures j == k
    {
      OneClaimPerIndex(c, states, actions, from, until, j, k);
    }
  }

  /** Within one worker phase no index is handed out twice, failures or not. */
  lemma OneClaimPerIndex(c: Config, states: seq<State>, actions: seq<Action>, from: nat, until: nat, j: nat, k: nat)
    requires c.Valid() && Run(c, states, actions) && Session(states, from, until)
    requires from <= j < until && from <= k < until && actions[j].Claim? && actions[k].Claim?
    ensures states[j].work.next == states[k].work.next ==> j == k
  {
    SessionCounts(c, states, actions, from, until);
    if j < k {
      CounterGrows(states, actions, j, k);
    } else if k < j {
      CounterGrows(states, actions, k, j);
    }
  }

  lemma CounterWithin(c: Config, s: State)
    requires CounterInv(c, s)
    ensures s.work.next <= c.Count() + c.workers
  {
    TotalAtMost(Overrun(c.Count()), s.work.workers);
  }

  /** The counter stays within chunk count plus worker count, and the "ended before every chunk" branch is dead. */
  lemma CounterBounded(c: Config, states: seq<State>, actions: seq<Action>, k: nat)
    requires c.Valid() && Run(c, states, actions) && k < |states| && states[k].phase.Working?
    ensures states[k].work.next <= c.Count() + c.workers
    ensures !states[k].work.coordinator.SomeMissing?
  {
    RunKeepsInv(c, states, actions, k);
    CounterWithin(c, states[k]);
  }

  // ---------------------------------------------------------------- the final file

  /** The final path changes only by the rename or from outside, and the rename installs verified bytes. */
  lemma FinalAppearsVerified(c: Config, states: seq<State>, actions: seq<Action>, k: nat)
    requires c.Valid() && Run(c, states, actions) && k < |actions|
    ensures states[k + 1].files.final != states[k].files.final ==>
              actions[k].Damage? || (actions[k].RenamePart? && FinalVerified(c, states[k + 1].files))
    ensures actions[k].RenamePart? ==> states[k].files.final.None? && states[k + 1].files.final == states[k].files.part
  {
    RunKeepsInv(c, states, actions, k);
    StepHistory(c, states[k], actions[k], states[k + 1]);
  }

  /** A normal return has a verified final file, whatever happened before. */
  lemma ReturnMeansVerified(c: Config, states: seq<State>, actions: seq<Action>, k: nat)
    requires c.Valid() && Run(c, states, actions) && k < |states| && states[k].phase.Returned?
    ensures FinalVerified(c, states[k].files)
  {
    RunKeepsInv(c, states, actions, k);
  }

  /** The manifest was built from `source`. */
  ghost predicate BuiltFrom(c: Config, source: string) {
    && c.manifest.Valid() && |source| <= MAX_UINT64
    && c.manifest == Describe(c.manifest.fileName, source, c.manifest.chunkSize, c.hash)
  }

  /** No chunk of a part file of this run collides with the source's chunk in the same place. */
  ghost predicate NoCollisions(c: Config, source: string, states: seq<State>)
    requires BuiltFrom(c, source)
  {
    forall k, i: nat | 0 <= k < |states| && Sized(c, states[k].files) && i < c.Count() ::
      var mine, its := Slice(c.Shape(), states[k].files.part.value, i), Slice(c.Shape(), source, i);
      c.hash(mine) == c.hash(its) ==> mine == its
  }

  lemma GoodPartIsSource(c: Config, source: string, part: string)
    requires BuiltFrom(c, source) && |part| == |source| && forall i | 0 <= i < c.Count() :: Good(c, part, i)
    requires forall i: nat | i < c.Count() ::
               var mine, its := Slice(c.Shape(), part, i), Slice(c.Shape(), source, i);
               c.hash(mine) == c.hash(its) ==> mine == its
    ensures part == source
  {
    forall i | c.Shape().Inside(i)
      ensures Slice(c.Shape(), part, i) == Slice(c.Shape(), source, i)
    {
      assert Good(c, part, i);
    }
    SlicesDetermineFile(c.Shape(), part, source);
  }

  /** Once every chunk is marked the part file is the source, so the whole-file check succeeds. */
  lemma MarkedPartIsSource(c: Config, source: string, states: seq<State>, actions: seq<Action>, k: nat)
    requires c.Valid() && Run(c, states, actions) && k < |states|
    requires BuiltFrom(c, source) && NoCollisions(c, source, states)
    requires Revalidated(states[k].phase) && AllMarked(states[k].memory.completed)
    ensures states[k].files.part == Some(source) && c.hash(source) == c.manifest.fileHash
  {
    forall i | 0 <= i < c.Count()
      ensures states[k].files.part.Some? && Good(c, states[k].files.part.value, i)
    {
      MarkedChunksAreVerified(c, states, actions, k, i);
    }
    PartIsThere(c, states, actions, k);
    GoodPartIsSource(c, source, states[k].files.part.value);
  }

  lemma PartIsThere(c: Config, states: seq<State>, actions: seq<Action>, k: nat)
    requires c.Valid() && Run(c, states, actions) && k < |states| && Revalidated(states[k].phase)
    ensures Sized(c, states[k].files) && |states[k].memory.completed| == c.Count()
  {
    RunKeepsInv(c, states, actions, k);
  }

  lemma CheckIsAnEndStep(c: Config, s: State, s': State)
    requires c.Valid() && Step(c, s, CheckWhole, s')
    ensures EndStep(c, s, CheckWhole, s')
  {
  }

  lemma WholeFileCheckSucceeds(c: Config, source: string, states: seq<State>, actions: seq<Action>, k: nat)
    requires c.Valid() && Run(c, states, actions) && k < |actions| && actions[k].CheckWhole?
    requires BuiltFrom(c, source) && NoCollisions(c, source, states)
    ensures states[k + 1].phase.Renaming?
  {
    CheckIsAnEndStep(c, states[k], states[k + 1]);
    CheckingIsComplete(c, states, actions, k);
    MarkedPartIsSource(c, source, states, actions, k);
  }

  lemma CheckingIsComplete(c: Config, states: seq<State>, actions: seq<Action>, k: nat)
    requires c.Valid() && Run(c, states, actions) && k < |states| && states[k].phase.Checking?
    ensures AllMarked(states[k].memory.completed)
  {
    RunKeepsInv(c, states, actions, k);
  }

  /** Left alone, the final file is the source, in every state of every run. */
  lemma {:induction false} FinalIsSource(c: Config, source: string, states: seq<State>, actions: seq<Action>, k: nat)
    requires c.Valid() && Run(c, states, actions) && k < |states|
    requires BuiltFrom(c, source) && NoCollisions(c, source, states)
    requires !states[k].files.damaged
    ensures states[k].files.final.None? || states[k].files.final == Some(source)
  {
    if k > 0 {
      RunKeepsInv(c, states, actions, k - 1);
      StepHistory(c, states[k - 1], actions[k - 1], states[k]);
      FinalIsSource(c, source, states, actions, k - 1);
      FinalAppearsVerified(c, states, actions, k - 1);
      if actions[k - 1].RenamePart? {
        MarkedPartIsSource(c, source, states, actions, k - 1);
      }
    }
  }

  /** Whatever was done to the files, a normal return has the source, unless its file collides with it. */
  lemma ReturnedIsSource(c: Config, source: string, states: seq<State>, actions: seq<Action>, k: nat)
    requires c.Valid() && Run(c, states, actions) && k < |states| && states[k].phase.Returned?
    requires BuiltFrom(c, source)
    requires var final := states[k].files.final;
             final.Some? && c.hash(final.value) == c.hash(source) ==> final.value == source
    ensures states[k].files.final == Some(source)
  {
    ReturnMeansVerified(c, states, actions, k);
  }

  // ---------------------------------------------------------------- announcements and served chunks

  /** The announcement is being sent by the heartbeat or by a worker. */
  ghost predicate Sends(s: State, a: Advert) {
    a.BothRead? && (a in s.work.adverts || Announcing(a) in s.work.workers)
  }

  /** Every chunk an announcement claims is complete and right while it is sent, and it can be printed. */
  lemma AnnouncementsAreTrue(c: Config, states: seq<State>, actions: seq<Action>, k: nat, a: Advert)
    requires c.Valid() && Run(c, states, actions) && k < |states| && states[k].phase.Working? && Sends(states[k], a)
    ensures |states[k].memory.completed| == c.Count() && Sized(c, states[k].files)
    ensures forall i | i in a.chunks || (a.hasAll && 0 <= i < c.Count()) ::
              i < c.Count() && states[k].memory.completed[i] && Good(c, states[k].files.part.value, i)
    ensures Encode(a.chunks, a.hasAll).Ok?
    ensures ParseList(Encode(a.chunks, a.hasAll).value) == Ok(if a.hasAll then [] else a.chunks)
  {
    RunKeepsInv(c, states, actions, k);
    assert AdvertOk(states[k].memory.completed, a);
    assert forall i | 0 <= i < |a.chunks| :: a.chunks[i] in a.chunks;
    ParseEncoded(a.chunks, a.hasAll);
  }

  /** A peer that reads an admitted chunk while others write never finds it corrupt, and its reply decodes. */
  lemma AdmittedReadsAreVerified(c: Config, states: seq<State>, actions: seq<Action>, k: nat, r: nat, after: string)
    requires c.Valid() && Run(c, states, actions) && k < |states| && states[k].phase.Working?
    requires r < |states[k].work.readers| && states[k].work.readers[r].Reading?
    requires states[k].work.readers[r].i < c.Count() ==>
               |states[k].work.readers[r].bytes| == c.Shape().Length(states[k].work.readers[r].i)
    ensures var i, bytes := states[k].work.readers[r].i, states[k].work.readers[r].bytes;
            && i < c.Count() && VerifiedChunk(c.manifest, c.hash, i, bytes)
            && DecodeReply(c.manifest, c.hash, i, DataReply(bytes, c.manifest.chunkHashes[i]) + after) == Ok(bytes)
  {
    RunKeepsInv(c, states, actions, k);
    var i, bytes := states[k].work.readers[r].i, states[k].work.readers[r].bytes;
    assert ReaderOk(c, states[k], states[k].work.readers[r]);
    assert bytes == Slice(c.Shape(), states[k].files.part.value, i);
    assert Good(c, states[k].files.part.value, i);
    DataReplyDecodes(c.manifest, c.hash, i, bytes, after);
  }
}
