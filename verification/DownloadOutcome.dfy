/** Exactly which stopped downloads can be finished, and how one comes to be stopped for good. */
module DownloadOutcome {
  import opened Base
  import opened Crypto
  import opened Geometry
  import opened Manifests
  import opened ChunkLists
  import opened Protocol
  import opened Announcements
  import opened ResumeText
  import opened ResumeStore
  import opened Download
  import opened DownloadInvariant
  import opened DownloadSteps
  import opened DownloadTheorems
  import opened DownloadPaths
  import opened DownloadHalt
  import opened DownloadRecovery

  // ---------------------------------------------------------------- from a stop to the return

  /** No chunk of the part file collides with the source's chunk in the same place. */
  ghost predicate NoCollisionNow(c: Config, source: string, part: Option<string>)
    requires BuiltFrom(c, source)
  {
    part.Some? && |part.value| == c.manifest.fileSize ==>
      forall i: nat | i < c.Count() ::
        var mine, its := Slice(c.Shape(), part.value, i), Slice(c.Shape(), source, i);
        c.hash(mine) == c.hash(its) ==> mine == its
  }

  /** Everything that is right in the part file is the source's. */
  lemma RightIsFromSource(c: Config, source: string, part: string, marks: Marks)
    requires BuiltFrom(c, source) && |part| == c.manifest.fileSize && |marks| == c.Count()
    requires NoCollisionNow(c, source, Some(part))
    requires forall i | 0 <= i < c.Count() && marks[i] :: Good(c, part, i)
    ensures FromSource(c, source, part, marks)
  {
    forall i | 0 <= i < c.Count() && marks[i]
      ensures Slice(c.Shape(), part, i) == Slice(c.Shape(), source, i)
    {
      assert Good(c, part, i);
    }
  }

  /** A stopped download whose files are acceptable gets to its workers if its progress can be announced. */
  lemma ReachStart(c: Config, source: string, o: State, port: nat) returns (base: Marks, t: State)
    requires c.Valid() && BuiltFrom(c, source) && Inv(c, o) && o.phase.Down? && Unfinished(o.files)
    requires !ShortPart(c, o.files) && NoCollisionNow(c, source, o.files.part)
    requires c.MayBind(port) && c.Announces(DiskMarks(c, o.files.resume), port)
    ensures base == DiskMarks(c, o.files.resume) && Leads(c, o, t) && AtTop(c, source, base, t, 0)
  {
    var s1 := ReachLoading(c, o);
    var s2 := ReachLoaded(c, o, s1);
    var s3 := ReachRevalidated(c, o, s2);
    base := s3.memory.completed;
    RevalidatedIsFromSource(c, source, o, s3);
    t := ReachWorkers(c, source, o, s3, port);
  }

  lemma RevalidatedIsFromSource(c: Config, source: string, o: State, s: State)
    requires c.Valid() && BuiltFrom(c, source) && Inv(c, s) && s.phase == Revalidating(c.Count(), false)
    requires NoCollisionNow(c, source, o.files.part) && (o.files.part.Some? ==> s.files.part == o.files.part)
    requires o.files.part.None? ==> s.memory.completed == MarksOf([], c.Count())
    ensures Sized(c, s.files) && FromSource(c, source, s.files.part.value, s.memory.completed)
  {
    if o.files.part.Some? {
      RightIsFromSource(c, source, s.files.part.value, s.memory.completed);
    }
  }

  /** The final file is the source, and neither part file nor resume file is left. */
  ghost predicate Tidy(source: string, f: Files) {
    f.final == Some(source) && f.part.None? && f.resume.published.None?
  }

  lemma Recovers(c: Config, source: string, o: State, port: nat) returns (t: State)
    requires c.Valid() && BuiltFrom(c, source) && Inv(c, o) && o.phase.Down? && Unfinished(o.files)
    requires !ShortPart(c, o.files) && NoCollisionNow(c, source, o.files.part)
    requires c.MayBind(port) && c.Announces(DiskMarks(c, o.files.resume), port)
    ensures Leads(c, o, t) && t.phase.Returned? && Tidy(source, t.files)
  {
    var base, s1 := ReachStart(c, source, o, port);
    var s2 := ReachIndex(c, source, base, o, s1, 0, c.Count());
    AllFromSource(c, source, base, s2);
    var s3 := ReachLeft(c, source, o, s2, 0);
    var s4 := ReachFinalFlush(c, source, o, s3);
    var s5 := ReachChecking(c, o, s4);
    t := ReachReturned(c, source, o, s5);
  }

  /** A finished file is recognised. */
  lemma FinishedReturns(c: Config, o: State) returns (t: State)
    requires c.Valid() && Inv(c, o) && o.phase.Down? && !o.files.damaged && o.files.final.Some?
    ensures Leads(c, o, t) && t.phase.Returned? && t.files == o.files
  {
    LeadsNowhere(c, o);
    var s := o.(phase := Starting);
    ByStartUp(c, o, o, Start, s);
    t := s.(phase := Returned);
    ByStartUp(c, o, s, Examine, t);
  }

  /** What stops a download for good. */
  ghost predicate Hopeless(c: Config, f: Files) {
    ShortPart(c, f) || Unannounceable(c, f)
  }

  lemma HopelessStaysBeforeWorkers(c: Config, o: State, t: State)
    requires c.Valid() && Inv(c, o) && o.phase.Down? && !o.files.damaged && Hopeless(c, o.files) && Leads(c, o, t)
    ensures !t.phase.Returned? && !(t.phase.Working? && t.work.coordinator.Joining?)
  {
    if ShortPart(c, o.files) {
      ShortForGood(c, o, t);
    } else {
      UnannounceableForGood(c, o, t);
    }
  }

  /**
   Left alone, a download that has stopped, wherever it was killed, can be finished if and only if its part file
   is not short and its progress can be announced, and then with the source as the final file and nothing else left.
   */
  lemma RecoverableIff(c: Config, source: string, states: seq<State>, actions: seq<Action>)
    requires c.Valid() && BuiltFrom(c, source) && Run(c, states, actions)
    requires var o := states[|actions|]; o.phase.Down? && !o.files.damaged && NoCollisionNow(c, source, o.files.part)
    ensures var o := states[|actions|];
            !Hopeless(c, o.files) ==>
              exists t :: Leads(c, o, t) && t.phase.Returned? && (o.files.final.None? ==> Tidy(source, t.files))
    ensures var o := states[|actions|];
            Hopeless(c, o.files) ==> forall t | Leads(c, o, t) :: !t.phase.Returned?
  {
    RunKeepsInv(c, states, actions, |actions|);
    OutcomeOf(c, source, states[|actions|]);
  }

  lemma OutcomeOf(c: Config, source: string, o: State)
    requires c.Valid() && BuiltFrom(c, source) && Inv(c, o)
    requires o.phase.Down? && !o.files.damaged && NoCollisionNow(c, source, o.files.part)
    ensures !Hopeless(c, o.files) ==>
              exists t :: Leads(c, o, t) && t.phase.Returned? && (o.files.final.None? ==> Tidy(source, t.files))
    ensures Hopeless(c, o.files) ==> forall t | Leads(c, o, t) :: !t.phase.Returned?
  {
    if Hopeless(c, o.files) {
      forall t | Leads(c, o, t)
        ensures !t.phase.Returned?
      {
        HopelessStaysBeforeWorkers(c, o, t);
      }
    } else if o.files.final.Some? {
      var t := FinishedReturns(c, o);
    } else {
      var port: nat :| c.MayBind(port) && c.Announces(DiskMarks(c, o.files.resume), port);
      var t := Recovers(c, source, o, port);
    }
  }

  /** And it gets to its workers under the same condition, if it is not finished already. */
  lemma WorkersStartIff(c: Config, source: string, states: seq<State>, actions: seq<Action>)
    requires c.Valid() && BuiltFrom(c, source) && Run(c, states, actions)
    requires var o := states[|actions|]; o.phase.Down? && Unfinished(o.files) && NoCollisionNow(c, source, o.files.part)
    ensures var o := states[|actions|];
            Hopeless(c, o.files) <==> forall t | Leads(c, o, t) :: !(t.phase.Working? && t.work.coordinator.Joining?)
  {
    RunKeepsInv(c, states, actions, |actions|);
    StartOf(c, source, states[|actions|]);
  }

  lemma StartOf(c: Config, source: string, o: State)
    requires c.Valid() && BuiltFrom(c, source) && Inv(c, o)
    requires o.phase.Down? && Unfinished(o.files) && NoCollisionNow(c, source, o.files.part)
    ensures Hopeless(c, o.files) <==> forall t | Leads(c, o, t) :: !(t.phase.Working? && t.work.coordinator.Joining?)
  {
    if Hopeless(c, o.files) {
      forall t | Leads(c, o, t)
        ensures !(t.phase.Working? && t.work.coordinator.Joining?)
      {
        HopelessStaysBeforeWorkers(c, o, t);
      }
    } else {
      var port: nat :| c.MayBind(port) && c.Announces(DiskMarks(c, o.files.resume), port);
      var base, t := ReachStart(c, source, o, port);
    }
  }

  // ---------------------------------------------------------------- what can be announced, with the real header

  lemma IndicesBounded(marks: Marks)
    requires |marks| <= MAX_UINT32
    ensures Bounded(Indices(marks, |marks|)) && StrictlyIncreasing(Indices(marks, |marks|))
  {
  }

  /** The announcement of a download's marks. */
  function MarksAdvert(m: Manifest, hash: Hash, token: string, peer: string, marks: Marks, port: nat): Advertisement
    requires m.Valid()
  {
    Advertisement(token, SwarmId(m, hash), peer, port, Indices(marks, |marks|), AllMarked(marks))
  }

  /** Marks can be announced exactly when token and peer id are atoms and the header is at most 8192 bytes. */
  lemma AnnouncesIff(m: Manifest, hash: Hash, workers: nat, token: string, peer: string, listenPort: nat,
                     marks: Marks, port: nat)
    requires m.Valid() && ProducesDigests(hash) && |marks| == |m.chunkHashes|
    requires ConfigFor(m, hash, workers, token, peer, listenPort).MayBind(port)
    ensures var a := MarksAdvert(m, hash, token, peer, marks, port);
            ConfigFor(m, hash, workers, token, peer, listenPort).Announces(marks, port)
            <==> SafeAtom(token) && SafeAtom(peer) && Encode(a.chunks, a.hasAll).Ok? && HeaderLength(a) <= MAX_HEADER_BYTES
  {
    var a := MarksAdvert(m, hash, token, peer, marks, port);
    IndicesBounded(marks);
    DigestIsAtom(SwarmId(m, hash));
    AnnouncementOutcome(a);
  }

  /** The first `n` chunks and no others. */
  function FirstMarks(count: nat, n: nat): (marks: Marks)
    ensures |marks| == count && forall i | 0 <= i < count :: marks[i] <==> i < n
  {
    seq(count, i => i < n)
  }

  lemma {:induction false} CountFirst(count: nat, n: nat, k: nat)
    requires k <= n <= count
    ensures |Indices(FirstMarks(count, n), k)| == k
  {
    if k > 0 {
      CountFirst(count, n, k - 1);
    }
  }

  lemma {:induction false} CountRest(count: nat, n: nat, k: nat)
    requires n <= k <= count
    ensures |Indices(FirstMarks(count, n), k)| == n
  {
    if k > n {
      CountRest(count, n, k - 1);
    } else {
      CountFirst(count, n, n);
    }
  }

  /** From this many chunks on, progress short of all cannot be announced. */
  lemma LongProgressUnannounceable(m: Manifest, hash: Hash, workers: nat, token: string, peer: string, listenPort: nat,
                                   n: nat, port: nat)
    requires m.Valid() && ProducesDigests(hash) && UNSENDABLE_LENGTH <= n < |m.chunkHashes|
    requires ConfigFor(m, hash, workers, token, peer, listenPort).MayBind(port)
    ensures !ConfigFor(m, hash, workers, token, peer, listenPort).Announces(FirstMarks(|m.chunkHashes|, n), port)
  {
    var marks := FirstMarks(|m.chunkHashes|, n);
    var a := MarksAdvert(m, hash, token, peer, marks, port);
    IndicesBounded(marks);
    CountRest(|marks|, n, |marks|);
    assert !marks[n];
    LongListUnsendable(a);
  }

  lemma NothingAnnounceable(m: Manifest, hash: Hash, workers: nat, token: string, peer: string, listenPort: nat, port: nat)
    requires m.Valid() && ProducesDigests(hash) && SafeAtom(token) && SafeAtom(peer)
    requires ConfigFor(m, hash, workers, token, peer, listenPort).MayBind(port)
    ensures ConfigFor(m, hash, workers, token, peer, listenPort).Announces(MarksOf([], |m.chunkHashes|), port)
  {
    var marks := MarksOf([], |m.chunkHashes|);
    IndicesBounded(marks);
    NoIndices(marks, |marks|);
    DigestIsAtom(SwarmId(m, hash));
    ShortAnnouncementsFit(MarksAdvert(m, hash, token, peer, marks, port));
  }

  lemma {:induction false} NoIndices(marks: Marks, k: nat)
    requires k <= |marks| && forall i | 0 <= i < |marks| :: !marks[i]
    ensures Indices(marks, k) == []
  {
    if k > 0 {
      NoIndices(marks, k - 1);
    }
  }

  // ---------------------------------------------------------------- killed with too much progress

  lemma CleanMeansPublished(c: Config, s: State)
    requires c.Valid() && Inv(c, s) && s.phase.Working? && !s.memory.dirty
    ensures DiskMarks(c, s.files.resume) == s.memory.completed
  {
  }

  lemma FirstMarked(c: Config, source: string, base: Marks, s: State, n: nat)
    requires BuiltFrom(c, source) && AtTop(c, source, base, s, n) && NoneMarked(base) && 0 < n
    ensures s.memory.completed == FirstMarks(c.Count(), n) && !s.memory.dirty
  {
    assert s.memory.completed[0] && !base[0];
  }

  lemma Killed(c: Config, o: State, s: State)
    requires c.Valid() && Leads(c, o, s) && !s.phase.Down?
    ensures Leads(c, o, s.(phase := Down))
  {
    assert OutsideStep(c, s, Crash(s.files.part), s.(phase := Down));
    Onward(c, o, s, Crash(s.files.part), s.(phase := Down));
  }

  lemma {:induction false} LeadsKeepsInvAlong(c: Config, states: seq<State>, k: nat)
    requires c.Valid() && Path(c, states) && k < |states| && Inv(c, states[0])
    ensures Inv(c, states[k])
  {
    if k > 0 {
      LeadsKeepsInvAlong(c, states, k - 1);
      MovedKeepsInv(c, states[k - 1], states[k]);
    }
  }

  lemma LeadsKeepsInv(c: Config, o: State, s: State)
    requires c.Valid() && Inv(c, o) && Leads(c, o, s)
    ensures Inv(c, s)
  {
    var states :| Path(c, states) && states[0] == o && states[|states| - 1] == s;
    LeadsKeepsInvAlong(c, states, |states| - 1);
  }

  lemma KilledAfter(c: Config, source: string, n: nat, o: State, port: nat) returns (t: State)
    requires c.Valid() && BuiltFrom(c, source) && Init(o) && 0 < n <= c.Count()
    requires c.MayBind(port) && c.Announces(MarksOf([], c.Count()), port)
    ensures Leads(c, o, t) && t.phase.Down? && Unfinished(t.files) && Sized(c, t.files)
    ensures DiskMarks(c, t.files.resume) == FirstMarks(c.Count(), n)
  {
    InitKeepsInv(c, o);
    var base, s1 := ReachStart(c, source, o, port);
    var s2 := ReachIndex(c, source, base, o, s1, 0, n);
    LeadsKeepsInv(c, o, s2);
    FirstMarked(c, source, base, s2, n);
    CleanMeansPublished(c, s2);
    Killed(c, o, s2);
    t := s2.(phase := Down);
  }

  // ---------------------------------------------------------------- paths are runs

  /** `a` accounts for the move, if any action does. */
  ghost predicate AccountsFor(c: Config, s: State, t: State, a: Action) {
    c.manifest.Valid() && Moved(c, s, t) ==> Step(c, s, a, t)
  }

  ghost function ActionOf(c: Config, s: State, t: State): (a: Action)
    ensures AccountsFor(c, s, t, a)
  {
    if c.manifest.Valid() && Moved(c, s, t) then
      var a :| Step(c, s, a, t) && !a.Damage?;
      a
    else Start
  }

  /** `f` of every two neighbours. */
  function Neighbours<S, A>(f: (S, S) -> A, xs: seq<S>): (ys: seq<A>)
    requires xs != []
    ensures |ys| == |xs| - 1
    ensures forall k | 0 <= k < |ys| :: ys[k] == f(xs[k], xs[k + 1])
  {
    seq(|xs| - 1, k requires 0 <= k < |xs| - 1 => f(xs[k], xs[k + 1]))
  }

  lemma PathIsRun(c: Config, states: seq<State>) returns (actions: seq<Action>)
    requires c.manifest.Valid() && Path(c, states) && Init(states[0])
    ensures Run(c, states, actions)
  {
    actions := Neighbours((s: State, t: State) => ActionOf(c, s, t), states);
    forall k | 0 <= k < |actions|
      ensures Step(c, states[k], actions[k], states[k + 1])
    {
      assert Moved(c, states[k], states[k + 1]);
      assert actions[k] == ActionOf(c, states[k], states[k + 1]);
      assert AccountsFor(c, states[k], states[k + 1], actions[k]);
    }
  }

  /** Whatever can be reached from the initial state is the last state of a run. */
  lemma ReachedByRun(c: Config, o: State, t: State) returns (states: seq<State>, actions: seq<Action>)
    requires c.manifest.Valid() && Init(o) && Leads(c, o, t)
    ensures Run(c, states, actions) && states[|actions|] == t
  {
    states :| Path(c, states) && states[0] == o && states[|states| - 1] == t;
    actions := PathIsRun(c, states);
  }

  // ---------------------------------------------------------------- the second way to be stopped for good

  /**
   A download with proper names, of any source with more than 4089 chunks, that is killed after the first `n` of
   them are published, for any such `n` from 4089 on: it is stopped for good although nothing was damaged.
   */
  lemma KilledWithLongList(m: Manifest, hash: Hash, workers: nat, token: string, peer: string, listenPort: nat,
                           source: string, n: nat) returns (states: seq<State>, actions: seq<Action>)
    requires m.Valid() && ProducesDigests(hash) && SafeAtom(token) && SafeAtom(peer)
    requires 0 < workers <= MAX_UINT32 - |m.chunkHashes| && listenPort <= MAX_UINT16
    requires UNSENDABLE_LENGTH <= n < |m.chunkHashes|
    requires BuiltFrom(ConfigFor(m, hash, workers, token, peer, listenPort), source)
    ensures var c := ConfigFor(m, hash, workers, token, peer, listenPort);
            && Run(c, states, actions)
            && var t := states[|actions|];
            && t.phase.Down? && !t.files.damaged && Hopeless(c, t.files) && !ShortPart(c, t.files)
            && DiskMarks(c, t.files.resume) == FirstMarks(|m.chunkHashes|, n)
  {
    var c := ConfigFor(m, hash, workers, token, peer, listenPort);
    ConfigForIsValid(m, hash, workers, token, peer, listenPort);
    var port := if listenPort != 0 then listenPort else 1;
    NothingAnnounceable(m, hash, workers, token, peer, listenPort, port);
    var o := State(Down, EmptyFiles(), NoMemory(), Idle, NoWork());
    var t := KilledAfter(c, source, n, o, port);
    LongProgressHopeless(m, hash, workers, token, peer, listenPort, n, t.files);
    states, actions := ReachedByRun(c, o, t);
  }

  lemma LongProgressHopeless(m: Manifest, hash: Hash, workers: nat, token: string, peer: string, listenPort: nat,
                             n: nat, f: Files)
    requires m.Valid() && ProducesDigests(hash) && UNSENDABLE_LENGTH <= n < |m.chunkHashes| && f.final.None?
    requires var c := ConfigFor(m, hash, workers, token, peer, listenPort);
             Sized(c, f) && DiskMarks(c, f.resume) == FirstMarks(|m.chunkHashes|, n)
    ensures var c := ConfigFor(m, hash, workers, token, peer, listenPort); Hopeless(c, f) && !ShortPart(c, f)
  {
    var c := ConfigFor(m, hash, workers, token, peer, listenPort);
    forall p: nat | c.MayBind(p)
      ensures !c.Announces(DiskMarks(c, f.resume), p)
    {
      LongProgressUnannounceable(m, hash, workers, token, peer, listenPort, n, p);
    }
  }

  // ---------------------------------------------------------------- later announcements

  /**
   Every announcement a worker or the heartbeat puts together reaches the tracker as intended exactly when token
   and peer id are atoms and its header fits; any other is not sent, and the download goes on.
   */
  lemma AnnouncementsArriveIff(m: Manifest, hash: Hash, workers: nat, token: string, peer: string, listenPort: nat,
                               states: seq<State>, actions: seq<Action>, k: nat, a: Advert)
    requires m.Valid() && ProducesDigests(hash)
    requires var c := ConfigFor(m, hash, workers, token, peer, listenPort); c.Valid() && Run(c, states, actions)
    requires k < |states| && states[k].phase.Working? && Sends(states[k], a)
    ensures Encode(a.chunks, a.hasAll).Ok?
    ensures var sent := Advertisement(token, SwarmId(m, hash), peer, states[k].work.port, a.chunks, a.hasAll);
            ParseTrackerRequest(Protocol.HeaderText(Fields(sent)))
            == if SafeAtom(token) && SafeAtom(peer) && HeaderLength(sent) <= MAX_HEADER_BYTES then Ok(Intended(sent)) else Err
  {
    var c := ConfigFor(m, hash, workers, token, peer, listenPort);
    AnnouncementsAreTrue(c, states, actions, k, a);
    BoundPort(c, states, actions, k);
    var sent := Advertisement(token, SwarmId(m, hash), peer, states[k].work.port, a.chunks, a.hasAll);
    forall i | 0 <= i < |a.chunks|
      ensures a.chunks[i] <= MAX_UINT32
    {
      assert a.chunks[i] in a.chunks;
    }
    DigestIsAtom(SwarmId(m, hash));
    AnnouncementOutcome(sent);
  }

  lemma BoundPort(c: Config, states: seq<State>, actions: seq<Action>, k: nat)
    requires c.Valid() && Run(c, states, actions) && k < |states| && states[k].phase.Working?
    ensures c.MayBind(states[k].work.port)
  {
    RunKeepsInv(c, states, actions, k);
  }
}
