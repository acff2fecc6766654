/** The text of a resume file and what loading it yields (src/resume_store.cpp:33-50, 203-270). */
module ResumeText {
  import opened Base
  import opened Text
  import opened ChunkLists

  const RESUME_MAGIC := "SWARMSYNC_RESUME_V1"

  /** One flag per chunk, as in `completed_`. */
  type Marks = seq<bool>

  // ---------------------------------------------------------------- marks and index lists

  /** `completed_chunks`: the marked indices below `n`, in increasing order. */
  function Indices(marks: Marks, n: nat): (xs: seq<nat>)
    requires n <= |marks|
    ensures StrictlyIncreasing(xs)
    ensures forall k | 0 <= k < |xs| :: xs[k] < n
    ensures forall i: nat :: i in xs <==> i < n && marks[i]
  {
    if n == 0 then []
    else if marks[n - 1] then Indices(marks, n - 1) + [n - 1]
    else Indices(marks, n - 1)
  }

  function MarksOf(xs: seq<nat>, n: nat): (marks: Marks)
    ensures |marks| == n && forall i | 0 <= i < n :: marks[i] <==> i in xs
  {
    seq(n, i => i in xs)
  }

  lemma MarksOfIndices(marks: Marks)
    ensures MarksOf(Indices(marks, |marks|), |marks|) == marks
  {
  }

  lemma MarksOfAppend(xs: seq<nat>, x: nat, n: nat)
    requires x < n
    ensures MarksOf(xs, n)[x := true] == MarksOf(xs + [x], n)
  {
  }

  predicate AllMarked(marks: Marks) {
    forall i | 0 <= i < |marks| :: marks[i]
  }

  /** Every chunk marked in `a` is marked in `b`. */
  predicate Below(a: Marks, b: Marks) {
    |a| == |b| && forall i | 0 <= i < |a| && a[i] :: b[i]
  }

  // ---------------------------------------------------------------- printing

  function CompleteText(marks: Marks): string {
    var xs := Indices(marks, |marks|);
    if xs == [] then "none" else ListText(xs)
  }

  function Serialize(id: string, marks: Marks): string {
    RESUME_MAGIC + "\n" + (FieldLine("swarm_id", id) + (FieldLine("chunk_count", Digits(|marks|))
    + FieldLine("complete", CompleteText(marks))))
  }

  /** The list as printed when the scan stands at `index`. */
  function ListSoFar(marks: Marks, index: nat): string
    requires index <= |marks|
  {
    var xs := Indices(marks, index);
    if xs == [] then "" else ListText(xs)
  }

  lemma ListGrows(marks: Marks, index: nat)
    requires index < |marks| && marks[index]
    ensures ListSoFar(marks, index + 1)
         == (if Indices(marks, index) == [] then "" else ListSoFar(marks, index) + ",") + Digits(index)
  {
    var xs := Indices(marks, index);
    if xs == [] {
      assert xs + [index] == [index];
      OneNumeral(index);
    } else {
      ListTextAppend(xs, index);
    }
  }

  lemma OneNumeral(index: nat)
    ensures ListText([index]) == Digits(index)
  {
    assert Numerals([index]) == [Digits(index)];
  }

  /** `serialize_locked`: the list is printed while scanning the flags. */
  method SerializeMarks(id: string, marks: Marks) returns (text: string)
    ensures text == Serialize(id, marks)
  {
    var list := "";
    var first := true;
    for index := 0 to |marks|
      invariant first <==> Indices(marks, index) == []
      invariant list == ListSoFar(marks, index)
    {
      if marks[index] {
        ListGrows(marks, index);
        if !first {
          list := list + ",";
        }
        list := list + Digits(index);
        first := false;
      }
    }
    if first {
      list := "none";
    }
    text := RESUME_MAGIC + "\n" + (FieldLine("swarm_id", id) + (FieldLine("chunk_count", Digits(|marks|))
            + FieldLine("complete", list)));
  }

  // ---------------------------------------------------------------- loading

  /** The marks named by the `complete` value; an empty value names none. */
  function ParseMarks(value: string, n: nat): Result<Marks> {
    if value == "none" || value == "" then Ok(MarksOf([], n)) else
      var xs :- ParseFields(Split(value, ','), -1);
      if forall x | x in xs :: x < n then Ok(MarksOf(xs, n)) else Err
  }

  function ReadMagic(text: string): Result<string> {
    var (magic, rest) :- ReadTextLine(text);
    if magic == RESUME_MAGIC then Ok(rest) else Err
  }

  /** `load_existing` for the given swarm id and chunk count. */
  function Load(id: string, n: nat, text: string): (r: Result<Marks>)
    ensures r.Ok? ==> |r.value| == n
  {
    var t0 :- ReadMagic(text);
    var (storedId, t1) :- ReadField(t0, "swarm_id");
    var (storedCount, t2) :- ReadNumberField(t1, "chunk_count", MAX_UINT32);
    var (complete, trailing) :- ReadField(t2, "complete");
    if trailing != "" || storedId != id || storedCount != n then Err else ParseMarks(complete, n)
  }

  /** The list has been read up to `rest`, and `done` is what it named so far. */
  ghost predicate Reading(value: string, rest: string, done: seq<nat>, n: nat) {
    value != "none" && Resumes(value, done, rest) && forall x | x in done :: x < n
  }

  lemma BadIndex(value: string, rest: string, done: seq<nat>, n: nat)
    requires value != "" && Reading(value, rest, done, n)
    requires var first := ParseNumber(rest[..IndexOf(rest, ',')], MAX_UINT32);
             first.Err? || first.value <= Last(done)
    ensures ParseMarks(value, n).Err?
  {
    ParseFirstField(rest, Last(done));
  }

  /** An index beyond the manifest spoils the list wherever it stands. */
  lemma TooLarge(value: string, rest: string, done: seq<nat>, index: nat, n: nat)
    requires value != "" && Reading(value, rest, done, n) && index >= n
    requires ParseNumber(rest[..IndexOf(rest, ',')], MAX_UINT32) == Ok(index)
    ensures ParseMarks(value, n).Err?
  {
    ParseFirstField(rest, Last(done));
    var all := ParseFields(Split(value, ','), -1);
    if all.Ok? {
      assert all.value[|done|] == index;
      assert index in all.value;
    }
  }

  lemma LastIndex(value: string, rest: string, done: seq<nat>, index: nat, n: nat)
    requires value != "" && Reading(value, rest, done, n) && Last(done) < index < n
    requires IndexOf(rest, ',') == |rest| && ParseNumber(rest, MAX_UINT32) == Ok(index)
    ensures ParseMarks(value, n) == Ok(MarksOf(done + [index], n))
  {
    assert rest[..|rest|] == rest;
    LastEntry(value, done, rest, index);
  }

  lemma NextIndex(value: string, rest: string, done: seq<nat>, index: nat, n: nat)
    requires value != "" && Reading(value, rest, done, n) && Last(done) < index < n
    requires IndexOf(rest, ',') < |rest|
    requires ParseNumber(rest[..IndexOf(rest, ',')], MAX_UINT32) == Ok(index)
    ensures Reading(value, rest[IndexOf(rest, ',') + 1..], done + [index], n)
    ensures IndexOf(rest, ',') + 1 == |rest| ==> ParseMarks(value, n).Err?
  {
    ResumesByOne(value, done, rest, index);
    if IndexOf(rest, ',') + 1 == |rest| {
      ParseNothing(index);
    }
  }

  /** What one entry of the list leads to. */
  datatype Turn = Refused | Finished(index: nat) | Next(index: nat, rest: string)

  /** One turn of the loop below: the entry at the front of `rest`. */
  method ReadEntry(rest: string, previous: int, n: nat, ghost value: string, ghost done: seq<nat>) returns (t: Turn)
    requires value != "" && Reading(value, rest, done, n) && previous == Last(done)
    ensures t.Refused? ==> ParseMarks(value, n).Err?
    ensures t.Finished? ==> t.index < n && ParseMarks(value, n) == Ok(MarksOf(done + [t.index], n))
    ensures t.Next? ==> t.index < n && 0 < |t.rest| < |rest| && Reading(value, t.rest, done + [t.index], n)
  {
    var comma := IndexOf(rest, ',');
    var number := ParseNumber(rest[..comma], MAX_UINT32);
    if number.Err? || number.value <= previous {
      BadIndex(value, rest, done, n);
      return Refused;
    }
    var index := number.value;
    if index >= n {
      TooLarge(value, rest, done, index, n);
      return Refused;
    }
    if comma == |rest| {
      assert rest[..comma] == rest;
      LastIndex(value, rest, done, index, n);
      return Finished(index);
    }
    NextIndex(value, rest, done, index, n);
    return if comma + 1 == |rest| then Refused else Next(index, rest[comma + 1..]);
  }

  /** The loop over the `complete` list. */
  method ReadMarks(value: string, n: nat) returns (r: Result<Marks>)
    ensures r == ParseMarks(value, n)
  {
    if value == "none" || value == "" {
      return Ok(MarksOf([], n));
    }
    var marks: Marks := MarksOf([], n);
    var rest := value;
    var previous: int := -1;
    ghost var done: seq<nat> := [];
    StartParsing(value);
    while true
      invariant previous == Last(done) && marks == MarksOf(done, n) && Reading(value, rest, done, n)
      decreases |rest|
    {
      var turn := ReadEntry(rest, previous, n, value, done);
      if turn.Refused? {
        return Err;
      }
      MarksOfAppend(done, turn.index, n);
      marks := marks[turn.index := true];
      if turn.Finished? {
        return Ok(marks);
      }
      done, previous, rest := done + [turn.index], turn.index, turn.rest;
    }
  }

  // ---------------------------------------------------------------- round trip

  lemma ParseCompleteText(marks: Marks)
    requires |marks| <= MAX_UINT32
    ensures ParseMarks(CompleteText(marks), |marks|) == Ok(marks)
    ensures PlainLine(CompleteText(marks))
  {
    var xs := Indices(marks, |marks|);
    if xs == [] {
      assert MarksOf([], |marks|) == MarksOf(xs, |marks|);
    } else {
      forall i | 0 <= i < |xs| ensures xs[i] <= MAX_UINT32 {
        assert xs[i] in xs;
      }
      ParseEncoded(xs, false);
      ListTextChars(xs);
    }
    MarksOfIndices(marks);
  }

  lemma ReadMagicOf(rest: string)
    ensures ReadMagic(RESUME_MAGIC + "\n" + rest) == Ok(rest)
  {
    ReadTextLineOfLine(RESUME_MAGIC, rest);
  }

  lemma ResumeFieldNamesPlain()
    ensures PlainLine("swarm_id") && PlainLine("chunk_count") && PlainLine("complete")
  {
  }

  /** Loading a printed resume file gives back exactly the marks; any other swarm or count is refused. */
  lemma LoadSerialize(id: string, marks: Marks, otherId: string, otherCount: nat)
    requires PlainLine(id) && |marks| <= MAX_UINT32
    ensures Load(otherId, otherCount, Serialize(id, marks))
         == if otherId == id && otherCount == |marks| then Ok(marks) else Err
  {
    ResumeFieldNamesPlain();
    var count, complete := FieldLine("chunk_count", Digits(|marks|)), FieldLine("complete", CompleteText(marks));
    ReadMagicOf(FieldLine("swarm_id", id) + (count + complete));
    ReadFieldOf("swarm_id", id, count + complete);
    ReadNumberFieldOf("chunk_count", |marks|, MAX_UINT32, complete);
    ParseCompleteText(marks);
    ReadFieldOf("complete", CompleteText(marks), "");
    assert complete + "" == complete;
  }

  /** Anything after the list line is refused. */
  lemma TrailingRefused(id: string, marks: Marks, extra: string)
    requires PlainLine(id) && |marks| <= MAX_UINT32 && extra != ""
    ensures Load(id, |marks|, Serialize(id, marks) + extra).Err?
  {
    ResumeFieldNamesPlain();
    var head := RESUME_MAGIC + "\n";
    var swarm := FieldLine("swarm_id", id);
    var count, complete := FieldLine("chunk_count", Digits(|marks|)), FieldLine("complete", CompleteText(marks));
    assert head + (swarm + (count + complete)) + extra == head + (swarm + (count + (complete + extra)));
    ReadMagicOf(swarm + (count + (complete + extra)));
    ReadFieldOf("swarm_id", id, count + (complete + extra));
    ReadNumberFieldOf("chunk_count", |marks|, MAX_UINT32, complete + extra);
    ParseCompleteText(marks);
    ReadFieldOf("complete", CompleteText(marks), extra);
  }

  /** The indices of the marks a strictly increasing list in range names are that list. */
  lemma IndicesOfMarks(xs: seq<nat>, n: nat)
    requires StrictlyIncreasing(xs) && forall x | x in xs :: x < n
    ensures Indices(MarksOf(xs, n), n) == xs
  {
    IncreasingUnique(Indices(MarksOf(xs, n), n), xs);
  }

  /** A list value stands for marks exactly when its numbers are the marked indices, in order and in range. */
  lemma ParseMarksIff(value: string, n: nat, marks: Marks)
    requires value != "none" && value != ""
    ensures ParseMarks(value, n) == Ok(marks) <==>
              |marks| == n && ParseFields(Split(value, ','), -1) == Ok(Indices(marks, n))
  {
    var all := ParseFields(Split(value, ','), -1);
    if all.Ok? && forall x | x in all.value :: x < n {
      IndicesOfMarks(all.value, n);
    }
    if |marks| == n && all == Ok(Indices(marks, n)) {
      MarksOfIndices(marks);
    }
  }
}
