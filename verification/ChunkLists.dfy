/** Advertised chunk lists: printing, strict parsing and searching (src/protocol.cpp:144-170, 497-515). */
module ChunkLists {
  import opened Base
  import opened Text

  predicate StrictlyIncreasing(xs: seq<nat>) {
    forall i, j | 0 <= i < j < |xs| :: xs[i] < xs[j]
  }

  predicate Bounded(xs: seq<nat>) {
    forall i | 0 <= i < |xs| :: xs[i] <= MAX_UINT32
  }

  lemma WithoutLast(xs: seq<nat>)
    requires xs != [] && StrictlyIncreasing(xs)
    ensures var n := |xs| - 1;
            && xs == xs[..n] + [xs[n]] && StrictlyIncreasing(xs[..n])
            && (forall x | x in xs :: x <= xs[n])
            && forall x: nat :: x in xs[..n] <==> x in xs && x != xs[n]
  {
    var n := |xs| - 1;
    assert xs == xs[..n] + [xs[n]];
    forall x | x in xs[..n]
      ensures x < xs[n]
    {
      var i :| 0 <= i < n && xs[..n][i] == x;
      assert xs[i] == x;
    }
  }

  /** A strictly increasing list is determined by its members. */
  lemma {:induction false} IncreasingUnique(xs: seq<nat>, ys: seq<nat>)
    requires StrictlyIncreasing(xs) && StrictlyIncreasing(ys) && forall x: nat :: x in xs <==> x in ys
    ensures xs == ys
  {
    assert (forall i | 0 <= i < |xs| :: xs[i] in ys) && (forall i | 0 <= i < |ys| :: ys[i] in xs);
    assert xs == [] <==> ys == [] by {
      assert (xs != [] ==> xs[0] in ys) && (ys != [] ==> ys[0] in xs);
    }
    if xs != [] {
      WithoutLast(xs);
      WithoutLast(ys);
      assert xs[|xs| - 1] == ys[|ys| - 1];
      IncreasingUnique(xs[..|xs| - 1], ys[..|ys| - 1]);
    }
  }

  // ---------------------------------------------------------------- printing

  function Numerals(xs: seq<nat>): (fields: seq<string>)
    ensures |fields| == |xs|
    ensures forall i | 0 <= i < |xs| :: fields[i] == Digits(xs[i])
  {
    if xs == [] then [] else [Digits(xs[0])] + Numerals(xs[1..])
  }

  function ListText(xs: seq<nat>): string {
    Join(Numerals(xs), ',')
  }

  /** `encode_chunk_list`: refuses a list that is not strictly increasing. */
  function Encode(xs: seq<nat>, all: bool): Result<string> {
    if all then Ok("all")
    else if xs == [] then Ok("none")
    else if StrictlyIncreasing(xs) then Ok(ListText(xs))
    else Err
  }

  lemma {:induction false} ListTextAppend(xs: seq<nat>, x: nat)
    requires xs != []
    ensures ListText(xs + [x]) == ListText(xs) + "," + Digits(x)
  {
    var ys := xs + [x];
    assert ys[1..] == xs[1..] + [x];
    if |xs| == 1 {
      assert Numerals(xs) == [Digits(xs[0])];
      assert Numerals(ys) == [Digits(xs[0])] + [Digits(x)];
      JoinCons(Digits(xs[0]), [Digits(x)], ',');
    } else {
      ListTextAppend(xs[1..], x);
      JoinCons(Digits(xs[0]), Numerals(xs[1..]), ',');
      JoinCons(Digits(xs[0]), Numerals(ys[1..]), ',');
      assert Digits(xs[0]) + "," + (ListText(xs[1..]) + "," + Digits(x))
          == Digits(xs[0]) + "," + ListText(xs[1..]) + "," + Digits(x);
    }
  }

  /** Numerals written so far, one more numeral after a comma. */
  lemma PrefixText(xs: seq<nat>, n: nat)
    requires n < |xs|
    ensures ListText(xs[..n + 1]) == (if n == 0 then "" else ListText(xs[..n]) + ",") + Digits(xs[n])
  {
    assert xs[..n + 1] == xs[..n] + [xs[n]];
    if n == 0 {
      assert Numerals(xs[..1]) == [Digits(xs[0])];
    } else {
      ListTextAppend(xs[..n], xs[n]);
    }
  }

  lemma IncreasingByNeighbours(xs: seq<nat>, n: nat)
    requires n < |xs| && StrictlyIncreasing(xs[..n])
    ensures StrictlyIncreasing(xs[..n + 1]) <==> n == 0 || xs[n - 1] < xs[n]
  {
    var ys := xs[..n + 1];
    assert forall i | 0 <= i < n :: ys[i] == xs[..n][i];
    if n > 0 && xs[n - 1] < xs[n] {
      forall i | 0 <= i < n ensures ys[i] < ys[n] {
        assert i < n - 1 ==> xs[..n][i] < xs[..n][n - 1];
      }
    }
  }

  method EncodeChunkList(chunks: seq<nat>, all: bool) returns (r: Result<string>)
    ensures r == Encode(chunks, all)
  {
    if all {
      return Ok("all");
    }
    if chunks == [] {
      return Ok("none");
    }
    var output := "";
    for index := 0 to |chunks|
      invariant StrictlyIncreasing(chunks[..index])
      invariant output == ListText(chunks[..index])
    {
      PrefixText(chunks, index);
      IncreasingByNeighbours(chunks, index);
      if index != 0 {
        output := output + ",";
      }
      if index > 0 && chunks[index] <= chunks[index - 1] {
        assert !StrictlyIncreasing(chunks);
        return Err;
      }
      output := output + Digits(chunks[index]);
    }
    assert chunks[..|chunks|] == chunks;
    return Ok(output);
  }

  // ---------------------------------------------------------------- parsing

  /** Numbers in the given fields, each above the one before; `floor` is the number before the first. */
  function ParseFields(fields: seq<string>, floor: int): (r: Result<seq<nat>>)
    ensures r.Ok? ==> |r.value| == |fields| && StrictlyIncreasing(r.value) && Bounded(r.value)
                      && (r.value != [] ==> floor < r.value[0])
  {
    if fields == [] then Ok([]) else
      var n :- ParseNumber(fields[0], MAX_UINT32);
      if n <= floor then Err else
        var rest :- ParseFields(fields[1..], n);
        Ok([n] + rest)
  }

  /** `parse_chunk_list`; the empty text fails because its only field is empty. */
  function ParseList(value: string): (r: Result<seq<nat>>)
    ensures r.Ok? ==> StrictlyIncreasing(r.value) && Bounded(r.value)
    ensures r.Ok? ==> (r.value == [] <==> value == "all" || value == "none")
  {
    if value == "all" || value == "none" then Ok([]) else ParseFields(Split(value, ','), -1)
  }

  function Last(xs: seq<nat>): int {
    if xs == [] then -1 else xs[|xs| - 1]
  }

  function Prepend(done: seq<nat>, r: Result<seq<nat>>): Result<seq<nat>> {
    match r case Ok(more) => Ok(done + more) case Err => Err
  }

  lemma PrependTwice(done: seq<nat>, n: nat, r: Result<seq<nat>>)
    ensures Prepend(done, Prepend([n], r)) == Prepend(done + [n], r)
    ensures Last(done + [n]) == n
  {
    if r.Ok? {
      assert done + ([n] + r.value) == done + [n] + r.value;
    }
  }

  lemma PrependNothing(r: Result<seq<nat>>)
    ensures Prepend([], r) == r
  {
    if r.Ok? {
      assert [] + r.value == r.value;
    }
  }

  /** Parsing the whole text amounts to having read `done` and going on with `rest`. */
  ghost predicate Resumes(value: string, done: seq<nat>, rest: string) {
    ParseFields(Split(value, ','), -1) == Prepend(done, ParseFields(Split(rest, ','), Last(done)))
  }

  lemma ParseFirstField(rest: string, floor: int)
    ensures var field := rest[..IndexOf(rest, ',')];
            var n := ParseNumber(field, MAX_UINT32);
            ParseFields(Split(rest, ','), floor)
            == if n.Err? || n.value <= floor then Err
               else if IndexOf(rest, ',') == |rest| then Ok([n.value])
               else Prepend([n.value], ParseFields(Split(rest[IndexOf(rest, ',') + 1..], ','), n.value))
  {
    var i := IndexOf(rest, ',');
    var fields := Split(rest, ',');
    assert fields[0] == rest[..i];
    if i == |rest| {
      assert fields[1..] == [];
      assert forall n: nat :: [n] + [] == [n];
    } else {
      assert fields[1..] == Split(rest[i + 1..], ',');
    }
  }

  method ParseChunkList(value: string) returns (r: Result<seq<nat>>)
    ensures r == ParseList(value)
  {
    if value == "all" || value == "none" {
      return Ok([]);
    }
    var chunks: seq<nat> := [];
    var start := 0;
    StartParsing(value);
    while start < |value|
      invariant start <= |value|
      invariant start == |value| ==> value == ""
      invariant Resumes(value, chunks, value[start..])
    {
      var rest := value[start..];
      ParseFirstField(rest, Last(chunks));
      var comma := IndexOf(rest, ',');
      var chunk :- ParseNumber(rest[..comma], MAX_UINT32);
      if chunks != [] && chunk <= chunks[|chunks| - 1] {
        return Err;
      }
      if comma == |rest| {
        return Ok(chunks + [chunk]);
      }
      ResumesByOne(value, chunks, rest, chunk);
      chunks := chunks + [chunk];
      start := start + comma + 1;
      assert value[start..] == rest[comma + 1..];
      if start == |value| {
        ParseNothing(chunk);
        return Err;
      }
    }
    return Err;
  }

  lemma StartParsing(value: string)
    ensures value[0..] == value && Resumes(value, [], value)
  {
    PrependNothing(ParseFields(Split(value, ','), -1));
  }

  /** The entry at the front of `rest` has been read and a comma follows it. */
  lemma ResumesByOne(value: string, done: seq<nat>, rest: string, n: nat)
    requires Resumes(value, done, rest) && IndexOf(rest, ',') < |rest| && Last(done) < n
    requires ParseNumber(rest[..IndexOf(rest, ',')], MAX_UINT32) == Ok(n)
    ensures Last(done + [n]) == n && Resumes(value, done + [n], rest[IndexOf(rest, ',') + 1..])
  {
    ParseFirstField(rest, Last(done));
    PrependTwice(done, n, ParseFields(Split(rest[IndexOf(rest, ',') + 1..], ','), n));
  }

  /** The entry that is all of `rest` has been read. */
  lemma LastEntry(value: string, done: seq<nat>, rest: string, n: nat)
    requires Resumes(value, done, rest) && IndexOf(rest, ',') == |rest| && Last(done) < n
    requires ParseNumber(rest[..|rest|], MAX_UINT32) == Ok(n)
    ensures ParseFields(Split(value, ','), -1) == Ok(done + [n])
  {
    ParseFirstField(rest, Last(done));
  }

  /** Nothing after a comma is an error. */
  lemma ParseNothing(floor: int)
    ensures ParseFields(Split("", ','), floor).Err?
  {
  }

  // ---------------------------------------------------------------- exactly which lists are accepted

  /** The fields are numerals of these numbers, one for one. */
  ghost predicate Spell(fields: seq<string>, xs: seq<nat>) {
    |fields| == |xs| && forall k | 0 <= k < |xs| :: NumeralOf(fields[k], xs[k])
  }

  lemma SpellTail(fields: seq<string>, xs: seq<nat>)
    requires fields != [] && xs != []
    ensures Spell(fields, xs) <==> NumeralOf(fields[0], xs[0]) && Spell(fields[1..], xs[1..])
  {
    if NumeralOf(fields[0], xs[0]) && Spell(fields[1..], xs[1..]) {
      forall k | 0 <= k < |xs|
        ensures NumeralOf(fields[k], xs[k])
      {
        if k > 0 {
          assert fields[1..][k - 1] == fields[k] && xs[1..][k - 1] == xs[k];
        }
      }
    }
  }

  lemma IncreasingTail(xs: seq<nat>)
    requires xs != []
    ensures StrictlyIncreasing(xs) <==> StrictlyIncreasing(xs[1..]) && (|xs| > 1 ==> xs[0] < xs[1])
    ensures Bounded(xs) <==> xs[0] <= MAX_UINT32 && Bounded(xs[1..])
  {
    assert forall i | 0 < i < |xs| :: xs[i] == xs[1..][i - 1];
  }

  lemma {:induction false} ParseFieldsIff(fields: seq<string>, floor: int, xs: seq<nat>)
    ensures ParseFields(fields, floor) == Ok(xs) <==>
              Spell(fields, xs) && StrictlyIncreasing(xs) && Bounded(xs) && (xs != [] ==> floor < xs[0])
  {
    if fields != [] && xs != [] {
      ParseNumberIff(fields[0], MAX_UINT32, xs[0]);
      ParseFieldsIff(fields[1..], xs[0], xs[1..]);
      SpellTail(fields, xs);
      IncreasingTail(xs);
      assert xs == [xs[0]] + xs[1..];
    }
  }

  /** A text is accepted exactly when it is `all`, `none`, or numerals of a strictly increasing 32-bit list. */
  lemma ParseListIff(value: string, xs: seq<nat>)
    ensures ParseList(value) == Ok(xs) <==>
              || ((value == "all" || value == "none") && xs == [])
              || (value != "all" && value != "none" && Spell(Split(value, ','), xs) && StrictlyIncreasing(xs) && Bounded(xs))
  {
    ParseFieldsIff(Split(value, ','), -1, xs);
  }

  // ---------------------------------------------------------------- round trips

  lemma {:induction false} ParseNumerals(xs: seq<nat>, floor: int)
    requires StrictlyIncreasing(xs) && Bounded(xs) && (xs != [] ==> floor < xs[0])
    ensures ParseFields(Numerals(xs), floor) == Ok(xs)
  {
    if xs != [] {
      ParseOfDigits(xs[0], MAX_UINT32);
      ParseNumerals(xs[1..], xs[0]);
      assert Numerals(xs)[1..] == Numerals(xs[1..]);
      assert [xs[0]] + xs[1..] == xs;
    }
  }

  lemma NumeralsPlain(xs: seq<nat>)
    ensures forall f | f in Numerals(xs) :: ',' !in f
  {
    forall f | f in Numerals(xs) ensures ',' !in f {
      var i :| 0 <= i < |xs| && Numerals(xs)[i] == f;
      DigitsPlain(xs[i]);
    }
  }

  predicate ListChar(c: char) {
    IsDigit(c) || c == ','
  }

  lemma {:induction false} ListTextChars(xs: seq<nat>)
    requires xs != []
    ensures ListText(xs) != "" && IsDigit(ListText(xs)[0])
    ensures forall c | c in ListText(xs) :: ListChar(c)
  {
    if |xs| == 1 {
      assert ListText(xs) == Digits(xs[0]);
      assert forall c | c in Digits(xs[0]) :: IsDigit(c);
    } else {
      ListTextChars(xs[1..]);
      JoinCons(Digits(xs[0]), Numerals(xs[1..]), ',');
    }
  }

  /** Parsing inverts printing on every strictly increasing list of 32-bit indices. */
  lemma ParseEncoded(xs: seq<nat>, all: bool)
    requires StrictlyIncreasing(xs) && Bounded(xs)
    ensures Encode(xs, all).Ok?
    ensures ParseList(Encode(xs, all).value) == Ok(if all then [] else xs)
    ensures Encode(xs, all).value == "all" <==> all
  {
    if !all && xs != [] {
      ListTextChars(xs);
      NumeralsPlain(xs);
      SplitJoin(Numerals(xs), ',');
      ParseNumerals(xs, -1);
    }
  }

  /** A list is refused by the printer exactly when no text stands for it; what is printed stands for it. */
  lemma EncodedIff(xs: seq<nat>, all: bool)
    requires Bounded(xs)
    ensures Encode(xs, all).Ok? ==> ParseList(Encode(xs, all).value) == Ok(if all then [] else xs)
    ensures Encode(xs, all).Err? ==> !all && forall value: string :: ParseList(value) != Ok(xs)
  {
    if all {
      assert ParseList("all") == Ok([]);
    } else if Encode(xs, all).Ok? {
      ParseEncoded(xs, all);
    }
  }

  lemma {:induction false} NumeralsNoLonger(fields: seq<string>, floor: int)
    requires fields != [] && ParseFields(fields, floor).Ok?
    ensures |Join(Numerals(ParseFields(fields, floor).value), ',')| <= |Join(fields, ',')|
  {
    var xs := ParseFields(fields, floor).value;
    DigitsShortest(fields[0]);
    if |fields| == 1 {
      assert Numerals(xs) == [Digits(xs[0])];
    } else {
      NumeralsNoLonger(fields[1..], xs[0]);
      assert xs[1..] == ParseFields(fields[1..], xs[0]).value;
      JoinCons(Digits(xs[0]), Numerals(xs[1..]), ',');
    }
  }

  /** Printing an accepted list again never makes it longer, so relaying cannot outgrow what was received. */
  lemma ReencodedNoLonger(value: string)
    requires ParseList(value).Ok?
    ensures Encode(ParseList(value).value, value == "all").Ok?
    ensures |Encode(ParseList(value).value, value == "all").value| <= |value|
  {
    if value != "all" && value != "none" {
      JoinSplit(value, ',');
      NumeralsNoLonger(Split(value, ','), -1);
    }
  }

  // ---------------------------------------------------------------- searching

  /** First position in `xs[lo..hi]` whose element is not below `x`, by halving, as `std::lower_bound` does. */
  function LowerBound(xs: seq<nat>, x: nat, lo: nat, hi: nat): (i: nat)
    requires lo <= hi <= |xs| && StrictlyIncreasing(xs)
    ensures lo <= i <= hi
    ensures forall k | lo <= k < i :: xs[k] < x
    ensures forall k | i <= k < hi :: x <= xs[k]
    decreases hi - lo
  {
    if lo == hi then lo else
      var middle := lo + (hi - lo) / 2;
      if xs[middle] < x then LowerBound(xs, x, middle + 1, hi) else LowerBound(xs, x, lo, middle)
  }

  /** `std::binary_search` on a strictly increasing list is membership. */
  function BinarySearch(xs: seq<nat>, x: nat): (found: bool)
    requires StrictlyIncreasing(xs)
    ensures found <==> x in xs
  {
    var i := LowerBound(xs, x, 0, |xs|);
    i < |xs| && !(x < xs[i])
  }
}
