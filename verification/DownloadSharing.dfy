/** What a download tells and gives to others while it works (src/download.cpp:237-278, src/peer_server.cpp:153-175). */
module DownloadSharing {
  import opened Geometry
  import opened ResumeText
  import opened Download
  import opened DownloadSteps
  import opened DownloadTheorems
  import opened DownloadPaths
  import opened DownloadRecovery

  // ---------------------------------------------------------------- announcements leave nothing out

  /** The list names exactly the marked chunks. */
  ghost predicate Names(chunks: seq<nat>, marks: Marks) {
    forall i: nat :: i in chunks <==> i < |marks| && marks[i]
  }

  /** The first read of an announcement took every mark there was, the second whether that was all. */
  ghost predicate Read(before: Advert, marks: Marks, after: Advert) {
    || (before.NotRead? && after.ListRead? && Names(after.chunks, marks))
    || (before.ListRead? && after == BothRead(before.chunks, AllMarked(marks)))
  }

  lemma WorkerReads(c: Config, s: State, a: Action, s': State)
    requires c.manifest.Valid() && Step(c, s, a, s') && (a.ReadList? || a.ReadAll?)
    ensures a.w < |s.work.workers| == |s'.work.workers|
    ensures s.work.workers[a.w].Announcing? && s'.work.workers[a.w].Announcing?
    ensures Read(s.work.workers[a.w].advert, s.memory.completed, s'.work.workers[a.w].advert)
  {
    assert QuietStep(c, s, a, s');
  }

  lemma HeartbeatReads(c: Config, s: State, a: Action, s': State)
    requires c.manifest.Valid() && Step(c, s, a, s') && (a.BeatReadsList? || a.BeatReadsAll?)
    ensures a.k < |s.work.adverts| == |s'.work.adverts|
    ensures Read(s.work.adverts[a.k], s.memory.completed, s'.work.adverts[a.k])
  {
    assert BystanderStep(c, s, a, s');
  }

  /** No other step changes an announcement except by ending it or beginning a new one. */
  lemma AdvertsOnlyRead(c: Config, s: State, a: Action, s': State, w: nat)
    requires c.manifest.Valid() && WorkingStep(c, s, a, s') && w < |s.work.workers| == |s'.work.workers|
    requires s.work.workers[w].Announcing? && s'.work.workers[w] != s.work.workers[w]
    ensures s'.work.workers[w] == Top || ((a == ReadList(w) || a == ReadAll(w)) && s'.work.workers[w].Announcing?)
  {
    if BystanderStep(c, s, a, s') || CoordinatorStep(c, s, a, s') {
      SameWorkers(c, s, a, s');
      assert false;
    } else if QuietStep(c, s, a, s') {
      OnlyReads(c, s, a, s', w);
    } else {
      WritersKeepAdverts(c, s, a, s', w);
    }
  }

  lemma ListKept(c: Config, states: seq<State>, actions: seq<Action>, k: nat, w: nat)
    requires c.Valid() && Run(c, states, actions) && k < |actions|
    requires states[k].phase.Working? && states[k + 1].phase.Working?
    requires w < |states[k].work.workers| && w < |states[k + 1].work.workers|
    requires states[k].work.workers[w].Announcing? && states[k + 1].work.workers[w].Announcing?
    requires !states[k].work.workers[w].advert.NotRead?
    ensures !states[k + 1].work.workers[w].advert.NotRead?
    ensures states[k + 1].work.workers[w].advert.chunks == states[k].work.workers[w].advert.chunks
  {
    StepKinds(c, states[k], actions[k], states[k + 1]);
    SameCrewSize(c, states, actions, k);
    if states[k + 1].work.workers[w] != states[k].work.workers[w] {
      AdvertsOnlyRead(c, states[k], actions[k], states[k + 1], w);
      WorkerReads(c, states[k], actions[k], states[k + 1]);
    }
  }

  lemma SameCrewSize(c: Config, states: seq<State>, actions: seq<Action>, k: nat)
    requires c.Valid() && Run(c, states, actions) && k < |actions|
    requires states[k].phase.Working? && states[k + 1].phase.Working?
    ensures |states[k].work.workers| == |states[k + 1].work.workers|
  {
    RunKeepsInv(c, states, actions, k);
    RunKeepsInv(c, states, actions, k + 1);
  }

  /** From `j` to `k` worker `w` is announcing, and a list once read stays. */
  ghost predicate ListStays(states: seq<State>, w: nat, j: nat, k: nat) {
    && j <= k < |states|
    && (forall m | j <= m <= k :: w < |states[m].work.workers| && states[m].work.workers[w].Announcing?)
    && (forall m | j <= m < k :: !states[m].work.workers[w].advert.NotRead? ==>
          !states[m + 1].work.workers[w].advert.NotRead?
          && states[m + 1].work.workers[w].advert.chunks == states[m].work.workers[w].advert.chunks)
  }

  lemma {:induction false} SameListThroughout(states: seq<State>, w: nat, j: nat, k: nat)
    requires ListStays(states, w, j, k) && !states[j].work.workers[w].advert.NotRead?
    ensures !states[k].work.workers[w].advert.NotRead?
    ensures states[k].work.workers[w].advert.chunks == states[j].work.workers[w].advert.chunks
  {
    if j < k {
      SameListThroughout(states, w, j, k - 1);
    }
  }

  /** From the read of its list on, a worker's announcement names exactly the chunks complete at that moment. */
  lemma AnnouncementsAreComplete(c: Config, states: seq<State>, actions: seq<Action>, j: nat, k: nat, w: nat)
    requires c.Valid() && Run(c, states, actions) && j < k < |states| && actions[j] == ReadList(w)
    requires forall m | j <= m <= k :: states[m].phase.Working?
    requires forall m | j < m <= k :: w < |states[m].work.workers| && states[m].work.workers[w].Announcing?
    ensures !states[k].work.workers[w].advert.NotRead?
    ensures Names(states[k].work.workers[w].advert.chunks, states[j].memory.completed)
  {
    ReadAt(c, states, actions, j, w);
    forall m | j + 1 <= m < k
      ensures !states[m].work.workers[w].advert.NotRead? ==>
                !states[m + 1].work.workers[w].advert.NotRead?
                && states[m + 1].work.workers[w].advert.chunks == states[m].work.workers[w].advert.chunks
    {
      if !states[m].work.workers[w].advert.NotRead? {
        ListKept(c, states, actions, m, w);
      }
    }
    SameListThroughout(states, w, j + 1, k);
  }

  lemma ReadAt(c: Config, states: seq<State>, actions: seq<Action>, j: nat, w: nat)
    requires c.Valid() && Run(c, states, actions) && j < |actions| && actions[j] == ReadList(w)
    ensures w < |states[j + 1].work.workers| && states[j + 1].work.workers[w].Announcing?
    ensures !states[j + 1].work.workers[w].advert.NotRead?
    ensures Names(states[j + 1].work.workers[w].advert.chunks, states[j].memory.completed)
  {
    WorkerReads(c, states[j], actions[j], states[j + 1]);
    ReadNotBoth(c, states[j], states[j + 1], w);
  }

  lemma ReadNotBoth(c: Config, s: State, s': State, w: nat)
    requires c.manifest.Valid() && Step(c, s, ReadList(w), s')
    ensures w < |s.work.workers| && s.work.workers[w] == Announcing(NotRead)
  {
    assert QuietStep(c, s, ReadList(w), s');
  }

  lemma SameWorkers(c: Config, s: State, a: Action, s': State)
    requires c.manifest.Valid() && (BystanderStep(c, s, a, s') || CoordinatorStep(c, s, a, s'))
    ensures s'.work.workers == s.work.workers
  {
  }

  lemma OnlyReads(c: Config, s: State, a: Action, s': State, w: nat)
    requires c.manifest.Valid() && QuietStep(c, s, a, s') && w < |s.work.workers| == |s'.work.workers|
    requires s.work.workers[w].Announcing? && s'.work.workers[w] != s.work.workers[w]
    ensures s'.work.workers[w] == Top || ((a == ReadList(w) || a == ReadAll(w)) && s'.work.workers[w].Announcing?)
  {
    var v := QuietMoves(c, s, a, s');
  }

  lemma WritersKeepAdverts(c: Config, s: State, a: Action, s': State, w: nat)
    requires WritingStep(c, s, a, s') && w < |s.work.workers| == |s'.work.workers| && s.work.workers[w].Announcing?
    ensures s'.work.workers[w] == s.work.workers[w]
  {
  }

  // ---------------------------------------------------------------- complete chunks are served

  lemma ByBystander(c: Config, o: State, s: State, a: Action, t: State)
    requires c.Valid() && Leads(c, o, s) && s.phase.Working? && BystanderStep(c, s, a, t)
    ensures Leads(c, o, t)
  {
    assert WorkingStep(c, s, a, t);
    WorkingKeepsHistory(c, s, a, t);
    Onward(c, o, s, a, t);
  }

  /** In every reachable state of the worker phase a GET for a complete chunk can be admitted and read to the end. */
  lemma CompleteChunksAreServed(c: Config, states: seq<State>, actions: seq<Action>, r: nat, i: nat)
    returns (t: State)
    requires c.Valid() && Run(c, states, actions)
    requires var s := states[|actions|];
             && s.phase.Working? && r < |s.work.readers| && s.work.readers[r].NoRequest?
             && i < |s.memory.completed| && s.memory.completed[i]
    ensures var s := states[|actions|];
            && i < c.Count() && Sized(c, s.files) && Leads(c, s, t)
            && t == WithReader(s, r, Reading(i, Slice(c.Shape(), s.files.part.value, i)))
  {
    RunKeepsInv(c, states, actions, |actions|);
    t := Serves(c, states[|actions|], r, i);
  }

  function WithReader(s: State, r: nat, reader: Reader): State
    requires r < |s.work.readers|
  {
    s.(work := s.work.(readers := s.work.readers[r := reader]))
  }

  lemma Admits(c: Config, o: State, s: State, r: nat, i: nat)
    requires c.Valid() && Leads(c, o, s) && s.phase.Working? && r < |s.work.readers| && s.work.readers[r].NoRequest?
    requires i < |s.memory.completed| && s.memory.completed[i]
    ensures Leads(c, o, WithReader(s, r, Reading(i, "")))
  {
    ByBystander(c, o, s, Admit(r, i), WithReader(s, r, Reading(i, "")));
  }

  lemma ReadsAll(c: Config, o: State, s: State, r: nat, i: nat)
    requires c.Valid() && Leads(c, o, s) && s.phase.Working? && Sized(c, s.files) && i < c.Count()
    requires r < |s.work.readers| && s.work.readers[r] == Reading(i, "")
    ensures Leads(c, o, WithReader(s, r, Reading(i, Slice(c.Shape(), s.files.part.value, i))))
  {
    ReadsAllStep(c, s, r, i);
    ByBystander(c, o, s, ReadMore(r, c.Shape().Length(i)),
                WithReader(s, r, Reading(i, Slice(c.Shape(), s.files.part.value, i))));
  }

  lemma ReadsAllStep(c: Config, s: State, r: nat, i: nat)
    requires c.Valid() && Sized(c, s.files) && i < c.Count()
    requires r < |s.work.readers| && s.work.readers[r] == Reading(i, "")
    ensures c.Shape().Length(i) > 0
    ensures BystanderStep(c, s, ReadMore(r, c.Shape().Length(i)),
                          WithReader(s, r, Reading(i, Slice(c.Shape(), s.files.part.value, i))))
  {
    ChunkInFile(c.Shape(), i);
    var part, at, n := s.files.part.value, c.Shape().Offset(i), c.Shape().Length(i);
    assert "" + part[at..at + n] == Slice(c.Shape(), part, i);
  }

  lemma Serves(c: Config, s: State, r: nat, i: nat) returns (t: State)
    requires c.Valid() && s.phase.Working? && Sized(c, s.files) && |s.memory.completed| == c.Count()
    requires r < |s.work.readers| && s.work.readers[r].NoRequest? && i < c.Count() && s.memory.completed[i]
    ensures Leads(c, s, t)
    ensures t == WithReader(s, r, Reading(i, Slice(c.Shape(), s.files.part.value, i)))
  {
    LeadsNowhere(c, s);
    Admits(c, s, s, r, i);
    ReadsAll(c, s, WithReader(s, r, Reading(i, "")), r, i);
    t := WithReader(s, r, Reading(i, Slice(c.Shape(), s.files.part.value, i)));
    assert s.work.readers[r := Reading(i, "")][r := t.work.readers[r]] == t.work.readers;
  }
}
