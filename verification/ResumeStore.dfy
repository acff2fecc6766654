/** Marks in memory, the dirty/revision protocol, and atomic publication (src/resume_store.cpp:52-201). */
module ResumeStore {
  import opened Base
  import opened Text
  import opened ResumeText

  // ---------------------------------------------------------------- memory and disk

  /** The fields guarded by the store's mutex. */
  datatype Memory = Memory(completed: Marks, revision: nat, dirty: bool)

  function WithMark(m: Memory, i: nat, value: bool): Memory
    requires i < |m.completed|
  {
    if m.completed[i] == value then m else Memory(m.completed[i := value], m.revision + 1, true)
  }

  /** A mark is what was asked, no other mark changes, and only a change counts as one. */
  lemma MarkEffect(m: Memory, i: nat, value: bool, j: nat)
    requires i < |m.completed| && j < |m.completed|
    ensures var t := WithMark(m, i, value);
            && |t.completed| == |m.completed| && t.completed[j] == (if j == i then value else m.completed[j])
            && (t.completed == m.completed <==> m.completed[i] == value)
            && (t.completed == m.completed ==> t == m)
            && (t.completed != m.completed ==> t.dirty && t.revision > m.revision)
  {
    assert m.completed[i := value][i] == value;
  }

  /** The resume file and the temporary file beside it. */
  datatype Disk = Disk(published: Option<string>, temporary: Option<string>) {
    /** `open` with O_TRUNC. */
    function Opened(): Disk {
      this.(temporary := Some(""))
    }

    function Appended(bytes: string): Disk
      requires temporary.Some?
    {
      this.(temporary := Some(temporary.value + bytes))
    }

    function Unlinked(): Disk {
      this.(temporary := None)
    }

    /** `rename` of the temporary file over the resume file, atomic. */
    function Renamed(): Disk
      requires temporary.Some?
    {
      Disk(temporary, None)
    }
  }

  // ---------------------------------------------------------------- the file format, as the protocol sees it

  /** Printing and loading marks; the protocol needs only that loading takes back what was printed. */
  datatype Codec = Codec(show: Marks -> string, load: string -> Result<Marks>)

  ghost predicate Faithful(k: Codec, n: nat) {
    && (forall marks: Marks | |marks| == n :: k.load(k.show(marks)) == Ok(marks))
    && (forall text :: k.load(text).Ok? ==> |k.load(text).value| == n)
  }

  function FileCodec(id: string, n: nat): Codec {
    Codec(marks => Serialize(id, marks), text => Load(id, n, text))
  }

  lemma FileCodecFaithful(id: string, n: nat)
    requires PlainLine(id) && n <= MAX_UINT32
    ensures Faithful(FileCodec(id, n), n)
  {
    forall marks: Marks | |marks| == n
      ensures Load(id, n, Serialize(id, marks)) == Ok(marks)
    {
      LoadSerialize(id, marks, id, n);
    }
  }

  // ---------------------------------------------------------------- the flush protocol

  /** Where the one flush in flight stands; `marks` and `revision` are its snapshot. */
  datatype Flight =
    | Idle
    | Snapped(marks: Marks, revision: nat)
    | Writing(marks: Marks, revision: nat, done: nat)
    | Published(revision: nat)

  datatype Store = Store(memory: Memory, flight: Flight, disk: Disk)

  datatype StoreAction =
    | Mark(index: nat, value: bool)
    | BeginFlush
    | OpenTemporary
    | WriteTemporary(count: nat)
    | RenameTemporary
    | FailFlush
    | EndFlush

  /** Marks may come at any time; a flush proceeds step by step and may fail until it is published. */
  ghost predicate StoreStep(k: Codec, s: Store, a: StoreAction, s': Store) {
    match a
    case Mark(i, value) =>
      i < |s.memory.completed| && s' == s.(memory := WithMark(s.memory, i, value))
    case BeginFlush =>
      && s.flight.Idle?
      && s' == if s.memory.dirty then s.(flight := Snapped(s.memory.completed, s.memory.revision)) else s
    case OpenTemporary =>
      s.flight.Snapped? && s' == s.(flight := Writing(s.flight.marks, s.flight.revision, 0), disk := s.disk.Opened())
    case WriteTemporary(count) =>
      && s.flight.Writing? && s.disk.temporary.Some?
      && var text, done := k.show(s.flight.marks), s.flight.done;
      && done + count <= |text|
      && s' == s.(flight := s.flight.(done := done + count), disk := s.disk.Appended(text[done..done + count]))
    case RenameTemporary =>
      && s.flight.Writing? && s.disk.temporary.Some? && s.flight.done == |k.show(s.flight.marks)|
      && s' == s.(flight := Published(s.flight.revision), disk := s.disk.Renamed())
    case FailFlush =>
      || (s.flight.Snapped? && s' == s.(flight := Idle))
      || (s.flight.Writing? && s' == s.(flight := Idle, disk := s.disk.Unlinked()))
    case EndFlush =>
      && s.flight.Published?
      && s' == s.(flight := Idle,
                  memory := if s.memory.revision == s.flight.revision then s.memory.(dirty := false) else s.memory)
  }

  ghost predicate FlightInv(k: Codec, n: nat, s: Store) {
    match s.flight
    case Idle => true
    case Snapped(marks, revision) =>
      |marks| == n && revision <= s.memory.revision && (revision == s.memory.revision ==> marks == s.memory.completed)
    case Writing(marks, revision, done) =>
      && |marks| == n && revision <= s.memory.revision
      && (revision == s.memory.revision ==> marks == s.memory.completed)
      && done <= |k.show(marks)| && s.disk.temporary == Some(k.show(marks)[..done])
    case Published(revision) =>
      && revision <= s.memory.revision
      && (revision == s.memory.revision ==> s.disk.published == Some(k.show(s.memory.completed)))
  }

  /** What the file on disk would load as. */
  ghost predicate SavedAs(k: Codec, disk: Disk, marks: Marks) {
    disk.published.Some? && k.load(disk.published.value) == Ok(marks)
  }

  ghost predicate StoreInv(k: Codec, n: nat, s: Store) {
    && |s.memory.completed| == n
    && (!s.flight.Idle? ==> s.memory.dirty)
    && FlightInv(k, n, s)
    && (!s.memory.dirty ==> SavedAs(k, s.disk, s.memory.completed))
  }

  lemma TakeMore(text: string, done: nat, count: nat)
    requires done + count <= |text|
    ensures text[..done] + text[done..done + count] == text[..done + count]
  {
  }

  lemma StoreStepKeepsInv(k: Codec, n: nat, s: Store, a: StoreAction, s': Store)
    requires Faithful(k, n) && StoreInv(k, n, s) && StoreStep(k, s, a, s')
    ensures StoreInv(k, n, s')
    ensures !a.RenameTemporary? ==> s'.disk.published == s.disk.published
  {
    match a
    case WriteTemporary(count) => TakeMore(k.show(s.flight.marks), s.flight.done, count);
    case RenameTemporary =>
      var text := k.show(s.flight.marks);
      assert text[..|text|] == text;
    case _ =>
  }

  /** A run: each state follows from the one before by one action. */
  ghost predicate StoreRun(k: Codec, states: seq<Store>, actions: seq<StoreAction>) {
    && |states| == |actions| + 1
    && forall i | 0 <= i < |actions| :: StoreStep(k, states[i], actions[i], states[i + 1])
  }

  lemma {:induction false} RunKeepsStoreInv(k: Codec, n: nat, states: seq<Store>, actions: seq<StoreAction>, i: nat)
    requires Faithful(k, n) && StoreRun(k, states, actions) && StoreInv(k, n, states[0]) && i < |states|
    ensures StoreInv(k, n, states[i])
  {
    if i > 0 {
      RunKeepsStoreInv(k, n, states, actions, i - 1);
      StoreStepKeepsInv(k, n, states[i - 1], actions[i - 1], states[i]);
    }
  }

  /**
   In every state of every run with at most one flush in flight, marks interleaved at will: a store that is
   not dirty would be loaded back exactly from disk.
   */
  lemma CleanMeansSaved(id: string, n: nat, states: seq<Store>, actions: seq<StoreAction>, i: nat)
    requires PlainLine(id) && n <= MAX_UINT32
    requires StoreRun(FileCodec(id, n), states, actions) && StoreInv(FileCodec(id, n), n, states[0]) && i < |states|
    ensures !states[i].memory.dirty ==>
              states[i].disk.published.Some?
              && Load(id, n, states[i].disk.published.value) == Ok(states[i].memory.completed)
  {
    FileCodecFaithful(id, n);
    RunKeepsStoreInv(FileCodec(id, n), n, states, actions, i);
  }

  /** The same store with two flushes in flight, sharing marks and disk. */
  datatype Pair = Pair(memory: Memory, first: Flight, second: Flight, disk: Disk)

  ghost predicate PairStep(k: Codec, p: Pair, byFirst: bool, a: StoreAction, p': Pair) {
    if byFirst
    then p'.second == p.second && StoreStep(k, Store(p.memory, p.first, p.disk), a, Store(p'.memory, p'.first, p'.disk))
    else p'.first == p.first && StoreStep(k, Store(p.memory, p.second, p.disk), a, Store(p'.memory, p'.second, p'.disk))
  }

  ghost predicate PairRun(k: Codec, states: seq<Pair>, turns: seq<bool>, actions: seq<StoreAction>) {
    && |states| == |actions| + 1 && |turns| == |actions|
    && forall i | 0 <= i < |actions| :: PairStep(k, states[i], turns[i], actions[i], states[i + 1])
  }

  /**
   Why one flush at a time is needed: both use the same temporary name.  From any marks and any files, a second
   flush that opens it between the first one's last write and its rename makes the first publish an empty file
   and call the store clean, and that file does not load.
   */
  lemma SecondFlushClobbers(id: string, n: nat, marks: Marks, disk: Disk)
    returns (states: seq<Pair>, turns: seq<bool>, actions: seq<StoreAction>)
    ensures PairRun(FileCodec(id, n), states, turns, actions)
    ensures states[0] == Pair(Memory(marks, 0, true), Idle, Idle, disk)
    ensures var last := states[|states| - 1];
            !last.memory.dirty && last.disk.published == Some("") && Load(id, n, "").Err?
  {
    states, turns, actions := Overlap(FileCodec(id, n), marks, disk);
  }

  lemma Overlap(k: Codec, marks: Marks, disk: Disk)
    returns (states: seq<Pair>, turns: seq<bool>, actions: seq<StoreAction>)
    ensures PairRun(k, states, turns, actions) && |states| == 8
    ensures states[0] == Pair(Memory(marks, 0, true), Idle, Idle, disk)
    ensures !states[7].memory.dirty && states[7].disk.published == Some("")
  {
    var text, memory := k.show(marks), Memory(marks, 0, true);
    var truncated := disk.Opened();
    var s0 := Pair(memory, Idle, Idle, disk);
    var s1 := s0.(first := Snapped(marks, 0));
    var s2 := s1.(first := Writing(marks, 0, 0), disk := truncated);
    var s3 := s2.(first := Writing(marks, 0, |text|), disk := truncated.Appended(text[0..|text|]));
    var s4 := s3.(second := Snapped(marks, 0));
    var s5 := s4.(second := Writing(marks, 0, 0), disk := s4.disk.Opened());
    var s6 := s5.(first := Published(0), disk := s5.disk.Renamed());
    var s7 := s6.(first := Idle, memory := memory.(dirty := false));
    states := [s0, s1, s2, s3, s4, s5, s6, s7];
    turns := [true, true, true, false, false, true, true];
    actions := [BeginFlush, OpenTemporary, WriteTemporary(|text|), BeginFlush, OpenTemporary, RenameTemporary, EndFlush];
    assert PairStep(k, s0, true, BeginFlush, s1) && PairStep(k, s1, true, OpenTemporary, s2);
    assert PairStep(k, s2, true, WriteTemporary(|text|), s3);
    assert PairStep(k, s3, false, BeginFlush, s4) && PairStep(k, s4, false, OpenTemporary, s5);
    assert PairStep(k, s5, true, RenameTemporary, s6) && PairStep(k, s6, true, EndFlush, s7);
  }

  // ---------------------------------------------------------------- the store as an object

  class ResumeFiles {
    var disk: Disk
    /** No operation on healthy storage fails. */
    const healthy: bool

    constructor (disk: Disk, healthy: bool)
      ensures this.disk == disk && this.healthy == healthy
    {
      this.disk, this.healthy := disk, healthy;
    }

    /** `write_atomic`: all of the content under the resume name, or the old file untouched. */
    method WriteAtomic(content: string) returns (ok: bool)
      modifies this
      ensures healthy ==> ok
      ensures ok ==> disk == Disk(Some(content), None)
      ensures !ok ==> disk.published == old(disk.published)
    {
      var fails: bool := *;
      if fails && !healthy {
        return false;
      }
      disk := disk.Opened();
      var offset := 0;
      while offset < |content|
        invariant offset <= |content|
        invariant disk == Disk(old(disk.published), Some(content[..offset]))
      {
        fails := *;
        if fails && !healthy {
          disk := disk.Unlinked();
          return false;
        }
        var written: nat :| 0 < written <= |content| - offset;
        TakeMore(content, offset, written);
        disk := disk.Appended(content[offset..offset + written]);
        offset := offset + written;
      }
      assert content[..offset] == content;
      fails := *;
      if fails && !healthy {
        disk := disk.Unlinked();
        return false;
      }
      disk := disk.Renamed();
      return true;
    }
  }

  class ChunkStore {
    const id: string
    const count: nat
    const files: ResumeFiles
    var completed: Marks
    var revision: nat
    var dirty: bool

    function State(): Memory
      reads this
    {
      Memory(completed, revision, dirty)
    }

    ghost predicate Valid()
      reads this, files
    {
      && PlainLine(id) && count <= MAX_UINT32
      && StoreInv(FileCodec(id, count), count, Store(State(), Idle, files.disk))
    }

    /** The private constructor: nothing marked, dirty because no file exists yet. */
    constructor Empty(id: string, count: nat, files: ResumeFiles)
      requires PlainLine(id) && count <= MAX_UINT32
      ensures Valid() && completed == MarksOf([], count) && dirty
      ensures this.id == id && this.count == count && this.files == files
    {
      this.id, this.count, this.files := id, count, files;
      completed, revision, dirty := MarksOf([], count), 0, true;
    }

    /** The store a loaded file describes: clean. */
    constructor Loaded(id: string, count: nat, files: ResumeFiles, marks: Marks)
      requires PlainLine(id) && count <= MAX_UINT32 && SavedAs(FileCodec(id, count), files.disk, marks)
      ensures Valid() && completed == marks && !dirty
      ensures this.id == id && this.count == count && this.files == files
    {
      this.id, this.count, this.files := id, count, files;
      completed, revision, dirty := marks, 0, false;
    }

    /** `load_or_create`: no file means nothing marked; an unacceptable file is an error. */
    static method LoadOrCreate(id: string, count: nat, files: ResumeFiles) returns (r: Result<ChunkStore>)
      requires PlainLine(id) && count <= MAX_UINT32
      ensures r.Err? <==> files.disk.published.Some? && Load(id, count, files.disk.published.value).Err?
      ensures r.Ok? ==>
                && fresh(r.value) && r.value.Valid()
                && r.value.id == id && r.value.count == count && r.value.files == files
                && r.value.dirty == files.disk.published.None?
                && Ok(r.value.completed) == if files.disk.published.Some?
                                            then Load(id, count, files.disk.published.value)
                                            else Ok(MarksOf([], count))
    {
      if files.disk.published.None? {
        var store := new ChunkStore.Empty(id, count, files);
        return Ok(store);
      }
      var marks := LoadExisting(id, count, files.disk.published.value);
      if marks.Err? {
        return Err;
      }
      var store := new ChunkStore.Loaded(id, count, files, marks.value);
      return Ok(store);
    }

    method MarkComplete(index: nat) returns (ok: bool)
      requires Valid()
      modifies this
      ensures Valid()
      ensures ok <==> index < count
      ensures State() == if ok then WithMark(old(State()), index, true) else old(State())
    {
      if index >= count {
        return false;
      }
      if !completed[index] {
        completed, revision, dirty := completed[index := true], revision + 1, true;
      }
      return true;
    }

    method MarkIncomplete(index: nat) returns (ok: bool)
      requires Valid()
      modifies this
      ensures Valid()
      ensures ok <==> index < count
      ensures State() == if ok then WithMark(old(State()), index, false) else old(State())
    {
      if index >= count {
        return false;
      }
      if completed[index] {
        completed, revision, dirty := completed[index := false], revision + 1, true;
      }
      return true;
    }

    method AllComplete() returns (all: bool)
      ensures all <==> AllMarked(completed)
    {
      for index := 0 to |completed|
        invariant forall i | 0 <= i < index :: completed[i]
      {
        if !completed[index] {
          return false;
        }
      }
      return true;
    }

    method CompletedChunks() returns (result: seq<nat>)
      requires |completed| == count
      ensures result == Indices(completed, count)
    {
      result := [];
      for index := 0 to count
        invariant result == Indices(completed, index)
      {
        if completed[index] {
          result := result + [index];
        }
      }
    }

    /** `flush` with nothing running beside it: afterwards the store is clean and saved, or nothing was published. */
    method Flush() returns (ok: bool)
      requires Valid()
      modifies this, files
      ensures Valid() && completed == old(completed) && revision == old(revision)
      ensures files.healthy ==> ok
      ensures ok ==> !dirty && SavedAs(FileCodec(id, count), files.disk, completed)
      ensures !ok ==> dirty == old(dirty) && files.disk.published == old(files.disk.published)
    {
      if !dirty {
        return true;
      }
      var snapshot := SerializeMarks(id, completed);
      var snapshotRevision := revision;
      ok := files.WriteAtomic(snapshot);
      if !ok {
        return;
      }
      LoadSerialize(id, completed, id, count);
      if revision == snapshotRevision {
        dirty := false;
      }
    }
  }

  /** `load_existing`: four lines, nothing after them, then the list. */
  method LoadExisting(id: string, n: nat, text: string) returns (r: Result<Marks>)
    ensures r == Load(id, n, text)
  {
    var t0 :- ReadMagic(text);
    var swarm :- ReadField(t0, "swarm_id");
    var count :- ReadNumberField(swarm.1, "chunk_count", MAX_UINT32);
    var complete :- ReadField(count.1, "complete");
    if complete.1 != "" || swarm.0 != id || count.0 != n {
      return Err;
    }
    r := ReadMarks(complete.0, n);
  }
}
