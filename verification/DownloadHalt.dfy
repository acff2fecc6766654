/**
 The states from which a download, left alone, never gets to its workers again: a part file created and never
 sized, and progress that can no longer be announced (src/download.cpp:40-59, 260, src/tracker.cpp:80-84).
 */
module DownloadHalt {
  import opened Base
  import opened ResumeText
  import opened ResumeStore
  import opened Download
  import opened DownloadInvariant
  import opened DownloadSteps
  import opened DownloadTheorems
  import opened DownloadPaths

  /** The marks a start finds on disk: those of the resume file, none without one. */
  function DiskMarks(c: Config, d: Disk): Marks {
    if d.published.Some? && c.codec.load(d.published.value).Ok?
    then c.codec.load(d.published.value).value
    else MarksOf([], c.Count())
  }

  ghost predicate ShortPart(c: Config, f: Files) {
    f.final.None? && f.part == Some("") && c.manifest.fileSize > 0
  }

  /** On no port that a start may get can the marks on disk be announced. */
  ghost predicate Unannounceable(c: Config, f: Files) {
    f.final.None? && forall port: nat | c.MayBind(port) :: !c.Announces(DiskMarks(c, f.resume), port)
  }

  /** Phases before the workers, with the marks still those on disk. */
  ghost predicate BeforeWorkers(c: Config, s: State) {
    match s.phase
    case Down => true
    case Starting => true
    case Sizing => true
    case Loading => true
    case Revalidating(_, _) => s.memory.completed == DiskMarks(c, s.files.resume)
    case Working =>
      (s.work.coordinator.FirstAnnounce? || s.work.coordinator.Broken?)
      && s.memory.completed == DiskMarks(c, s.files.resume)
    case ErrorFlush(_) => s.memory.completed == DiskMarks(c, s.files.resume)
    case _ => false
  }

  ghost predicate Halted(c: Config, s: State) {
    && Unannounceable(c, s.files) && BeforeWorkers(c, s) && !s.files.damaged
  }

  // ---------------------------------------------------------------- one step

  lemma HaltedStartUp(c: Config, s: State, a: Action, s': State)
    requires c.Valid() && Inv(c, s) && Halted(c, s) && StartUpStep(c, s, a, s')
    ensures Halted(c, s')
  {
    StartUpKeepsHistory(c, s, a, s');
    StartUpKeepsInv(c, s, a, s');
    match a
    case LoadResume =>
    case RevalidateNext => assert s'.memory == s.memory;
    case _ =>
  }

  /** A flush after a failed announcement publishes the marks that are on disk already. */
  lemma FlushSameMarks(c: Config, s: State, step: StoreAction, st: Store, begun: bool)
    requires c.Valid() && TrustedInv(c, s) && MainFlight(s, begun) && s.memory.completed == DiskMarks(c, s.files.resume)
    requires StoreStep(c.codec, s.Stored(), step, st) && !step.Mark?
    ensures st.memory.completed == DiskMarks(c, st.disk) && st.memory.completed == s.memory.completed
  {
    StoreStepKeepsInv(c.codec, c.Count(), s.Stored(), step, st);
    if step.RenameTemporary? {
      var text := c.codec.show(s.flight.marks);
      assert text[..|text|] == text;
    }
  }

  lemma HaltedFlush(c: Config, s: State, a: Action, s': State)
    requires c.Valid() && Inv(c, s) && Halted(c, s) && MainFlushStep(c, s, a, s')
    ensures Halted(c, s')
  {
    MainFlushKeepsHistory(c, s, a, s');
    if !a.MainFlushEnds? {
      var step := if a.MainBegins? then BeginFlush else if a.MainFlushes? then a.step else FailFlush;
      var st :| StoreStep(c.codec, s.Stored(), step, st) && s'.files.resume == st.disk && s'.memory == st.memory
                && (s'.phase.Down? || s'.phase.ErrorFlush?);
      FlushSameMarks(c, s, step, st, s.phase.begun);
    }
  }

  lemma HaltedWorking(c: Config, s: State, a: Action, s': State)
    requires c.Valid() && Inv(c, s) && Halted(c, s) && WorkingStep(c, s, a, s')
    ensures Halted(c, s')
  {
    assert BystanderStep(c, s, a, s') || CoordinatorStep(c, s, a, s');
    BystanderKeepsHistory(c, s, a, s');
    assert c.MayBind(s.work.port);
  }

  lemma HaltedStep(c: Config, s: State, a: Action, s': State)
    requires c.Valid() && Inv(c, s) && Halted(c, s) && Step(c, s, a, s') && !a.Damage?
    ensures Halted(c, s')
  {
    if StartUpStep(c, s, a, s') {
      HaltedStartUp(c, s, a, s');
    } else if MainFlushStep(c, s, a, s') {
      HaltedFlush(c, s, a, s');
    } else if WorkingStep(c, s, a, s') {
      HaltedWorking(c, s, a, s');
    } else if EndStep(c, s, a, s') {
      EndPhases(c, s, a, s');
      assert false;
    }
  }

  lemma {:induction false} HaltedAlong(c: Config, states: seq<State>, k: nat)
    requires c.Valid() && Path(c, states) && k < |states| && Inv(c, states[0]) && Halted(c, states[0])
    ensures Inv(c, states[k]) && Halted(c, states[k])
  {
    if k > 0 {
      HaltedAlong(c, states, k - 1);
      HaltedMoved(c, states[k - 1], states[k]);
    }
  }

  lemma HaltedMoved(c: Config, s: State, t: State)
    requires c.Valid() && Inv(c, s) && Halted(c, s) && Moved(c, s, t)
    ensures Inv(c, t) && Halted(c, t)
  {
    var a :| Step(c, s, a, t) && !a.Damage?;
    StepKeepsInv(c, s, a, t);
    HaltedStep(c, s, a, t);
  }

  /** Progress that cannot be announced stops every later start before its workers, for good. */
  lemma UnannounceableForGood(c: Config, s: State, t: State)
    requires c.Valid() && Inv(c, s) && Halted(c, s) && Leads(c, s, t)
    ensures Halted(c, t)
  {
    var states :| Path(c, states) && states[0] == s && states[|states| - 1] == t;
    HaltedAlong(c, states, |states| - 1);
  }

  // ---------------------------------------------------------------- the short part file

  ghost predicate Stuck(c: Config, s: State) {
    (s.phase.Down? || s.phase.Starting?) && ShortPart(c, s.files) && !s.files.damaged
  }

  lemma StuckStep(c: Config, s: State, a: Action, s': State)
    requires c.Valid() && Stuck(c, s) && Step(c, s, a, s') && !a.Damage?
    ensures Stuck(c, s')
  {
    StepKinds(c, s, a, s');
    StuckKinds(c, s, a, s');
  }

  lemma StuckKinds(c: Config, s: State, a: Action, s': State)
    requires c.Valid() && Stuck(c, s) && !a.Damage?
    requires StartUpStep(c, s, a, s') || OutsideStep(c, s, a, s')
    ensures Stuck(c, s')
  {
    if StartUpStep(c, s, a, s') {
      StartUpPhases(c, s, a, s');
    }
  }

  lemma StuckMoved(c: Config, s: State, t: State)
    requires c.Valid() && Stuck(c, s) && Moved(c, s, t)
    ensures Stuck(c, t)
  {
    var a :| Step(c, s, a, t) && !a.Damage?;
    StuckStep(c, s, a, t);
  }

  lemma {:induction false} StuckAlong(c: Config, states: seq<State>, k: nat)
    requires c.Valid() && Path(c, states) && k < |states| && Stuck(c, states[0])
    ensures Stuck(c, states[k])
  {
    if k > 0 {
      StuckAlong(c, states, k - 1);
      StuckMoved(c, states[k - 1], states[k]);
    }
  }

  /** A part file created and never sized makes every later start give up on the files, for good. */
  lemma ShortForGood(c: Config, s: State, t: State)
    requires c.Valid() && Stuck(c, s) && Leads(c, s, t)
    ensures Stuck(c, t)
  {
    var states :| Path(c, states) && states[0] == s && states[|states| - 1] == t;
    StuckAlong(c, states, |states| - 1);
  }

  /** A kill between creating the part file and sizing it. */
  lemma KilledWhileSizing(c: Config) returns (states: seq<State>, actions: seq<Action>)
    requires c.Valid() && c.manifest.fileSize > 0
    ensures Run(c, states, actions) && |states| == 4
    ensures Stuck(c, states[3])
  {
    var s0 := State(Down, EmptyFiles(), NoMemory(), Idle, NoWork());
    var s1 := s0.(phase := Starting);
    var s2 := s1.(phase := Sizing, files := s1.files.(part := Some("")));
    var s3 := s2.(phase := Down);
    states, actions := [s0, s1, s2, s3], [Start, Examine, Crash(Some(""))];
    assert StartUpStep(c, s0, Start, s1);
    assert StartUpStep(c, s1, Examine, s2);
    assert OutsideStep(c, s2, Crash(Some("")), s3);
  }
}
