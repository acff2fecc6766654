/** Splitting, joining and decimal numerals: the text layer under every printer and parser. */
module Text {
  import opened Base

  // ---------------------------------------------------------------- searching

  /** Position of the first `c` in `s`, or `|s|` when there is none. */
  function IndexOf(s: string, c: char): (i: nat)
    ensures i <= |s|
    ensures i < |s| ==> s[i] == c
    ensures c !in s[..i]
  {
    if s == "" || s[0] == c then 0 else
      var rest := IndexOf(s[1..], c);
      assert s[..1 + rest] == [s[0]] + s[1..][..rest];
      1 + rest
  }

  lemma IndexOfUnique(s: string, c: char, i: nat)
    requires i < |s| && s[i] == c && c !in s[..i]
    ensures IndexOf(s, c) == i
  {
  }

  lemma IndexOfNone(s: string, c: char)
    requires c !in s
    ensures IndexOf(s, c) == |s|
  {
  }

  // ---------------------------------------------------------------- splitting

  /** The fields of `s` between separators `c`; always at least one field. */
  function Split(s: string, c: char): (fields: seq<string>)
    ensures |fields| >= 1
    decreases |s|
  {
    var i := IndexOf(s, c);
    if i == |s| then [s] else [s[..i]] + Split(s[i + 1..], c)
  }

  function Join(fields: seq<string>, c: char): string {
    if fields == [] then ""
    else if |fields| == 1 then fields[0]
    else fields[0] + [c] + Join(fields[1..], c)
  }

  lemma SplitAt(s: string, c: char, i: nat)
    requires i < |s| && s[i] == c && c !in s[..i]
    ensures Split(s, c) == [s[..i]] + Split(s[i + 1..], c)
  {
    IndexOfUnique(s, c, i);
  }

  /** Splitting undoes joining when no field holds the separator. */
  lemma {:induction false} SplitJoin(fields: seq<string>, c: char)
    requires fields != []
    requires forall f | f in fields :: c !in f
    ensures Split(Join(fields, c), c) == fields
  {
    var s := Join(fields, c);
    if |fields| == 1 {
      IndexOfNone(s, c);
    } else {
      var i := |fields[0]|;
      assert s[..i] == fields[0];
      assert s[i + 1..] == Join(fields[1..], c);
      SplitAt(s, c, i);
      SplitJoin(fields[1..], c);
    }
  }

  /** Joining undoes splitting for every text, and no field holds the separator. */
  lemma {:induction false} JoinSplit(s: string, c: char)
    ensures Join(Split(s, c), c) == s
    ensures forall f | f in Split(s, c) :: c !in f
    decreases |s|
  {
    var i := IndexOf(s, c);
    if i == |s| {
      assert s[..i] == s;
    } else {
      var rest := Split(s[i + 1..], c);
      JoinSplit(s[i + 1..], c);
      JoinCons(s[..i], rest, c);
      assert s == s[..i] + [c] + s[i + 1..];
      forall f | f in [s[..i]] + rest
        ensures c !in f
      {
      }
    }
  }

  lemma {:induction false} JoinCons(first: string, rest: seq<string>, c: char)
    requires rest != []
    ensures Join([first] + rest, c) == first + [c] + Join(rest, c)
  {
    assert ([first] + rest)[1..] == rest;
  }

  lemma {:induction false} JoinAppend(fields: seq<string>, c: char, last: string)
    requires fields != []
    ensures Join(fields + [last], c) == Join(fields, c) + [c] + last
  {
    if |fields| == 1 {
      assert fields + [last] == [fields[0], last];
    } else {
      JoinAppend(fields[1..], c, last);
      assert (fields + [last])[1..] == fields[1..] + [last];
    }
  }

  /** One more field after a separator is one more field. */
  lemma SplitAppend(a: string, c: char, b: string)
    requires c !in b
    ensures Split(a + [c] + b, c) == Split(a, c) + [b]
  {
    JoinSplit(a, c);
    FieldsAppend(Split(a, c), c, b, a);
  }

  lemma FieldsAppend(fields: seq<string>, c: char, last: string, text: string)
    requires fields != [] && text == Join(fields, c) && c !in last && forall f | f in fields :: c !in f
    ensures Split(text + [c] + last, c) == fields + [last]
  {
    JoinAppend(fields, c, last);
    SplitJoin(fields + [last], c);
  }

  // ---------------------------------------------------------------- lines

  /** `std::getline`: `None` at end of input, otherwise the line and what follows its newline. */
  function GetLine(s: string): (r: Option<(string, string)>)
    ensures r.None? <==> s == ""
    ensures r.Some? ==> |r.value.1| < |s|
  {
    if s == "" then None else
      var i := IndexOf(s, '\n');
      if i == |s| then Some((s, "")) else Some((s[..i], s[i + 1..]))
  }

  lemma GetLineOfLine(line: string, rest: string)
    requires '\n' !in line
    ensures GetLine(line + "\n" + rest) == Some((line, rest))
  {
    var s := line + "\n" + rest;
    assert s[..|line|] == line;
    IndexOfUnique(s, '\n', |line|);
    assert s[|line| + 1..] == rest;
  }

  /** A required line of a manifest or resume file: one trailing carriage return is dropped. */
  function ReadTextLine(s: string): Result<(string, string)> {
    match GetLine(s)
    case None => Err
    case Some((line, rest)) =>
      if line != "" && line[|line| - 1] == '\r' then Ok((line[..|line| - 1], rest)) else Ok((line, rest))
  }

  /** Lines may end in CR LF, and the last one in nothing at all. */
  lemma LineEndings(line: string, rest: string)
    requires PlainLine(line)
    ensures ReadTextLine(line + "\r\n" + rest) == Ok((line, rest))
    ensures line != "" ==> ReadTextLine(line) == Ok((line, ""))
    ensures ReadTextLine("").Err?
  {
    var returned := line + "\r";
    assert line + "\r\n" + rest == returned + "\n" + rest;
    GetLineOfLine(returned, rest);
    assert returned[..|returned| - 1] == line;
    if line != "" {
      IndexOfNone(line, '\n');
    }
  }

  predicate PlainLine(line: string) {
    '\n' !in line && '\r' !in line
  }

  lemma ReadTextLineOfLine(line: string, rest: string)
    requires PlainLine(line)
    ensures ReadTextLine(line + "\n" + rest) == Ok((line, rest))
  {
    GetLineOfLine(line, rest);
  }

  // ---------------------------------------------------------------- repeated records

  type Reader<!T> = string -> Result<(T, string)>

  /** `n` records read one after the other. */
  function ReadMany<T>(read: Reader<T>, text: string, n: nat): (r: Result<(seq<T>, string)>)
    ensures r.Ok? ==> |r.value.0| == n
    decreases n
  {
    if n == 0 then Ok(([], text)) else
      var (item, rest) :- read(text);
      var (items, remainder) :- ReadMany(read, rest, n - 1);
      Ok(([item] + items, remainder))
  }

  function PrintMany<T>(show: T -> string, items: seq<T>): string {
    if items == [] then "" else show(items[0]) + PrintMany(show, items[1..])
  }

  /** `read` takes back exactly what `show` wrote for the record `item`, whatever follows. */
  ghost predicate Inverts<T>(read: Reader<T>, show: T -> string, item: T) {
    forall rest :: read(show(item) + rest) == Ok((item, rest))
  }

  /** Reading back all records that were printed leaves what follows them. */
  lemma {:induction false} ReadPrintedThen<T>(read: Reader<T>, show: T -> string, items: seq<T>, rest: string)
    requires forall x | x in items :: Inverts(read, show, x)
    ensures ReadMany(read, PrintMany(show, items) + rest, |items|) == Ok((items, rest))
  {
    if items == [] {
      assert PrintMany(show, items) + rest == rest;
    } else {
      assert Inverts(read, show, items[0]);
      ReadPrintedThen(read, show, items[1..], rest);
      assert PrintMany(show, items) + rest == show(items[0]) + (PrintMany(show, items[1..]) + rest);
      assert [items[0]] + items[1..] == items;
    }
  }

  /** Reading back records that were printed one after the other. */
  lemma {:induction false} ReadPrinted<T>(read: Reader<T>, show: T -> string, items: seq<T>, n: nat)
    requires n <= |items| && forall x | x in items :: Inverts(read, show, x)
    ensures ReadMany(read, PrintMany(show, items), n) == Ok((items[..n], PrintMany(show, items[n..])))
  {
    if n == 0 {
      assert items[0..] == items && items[..0] == [];
    } else {
      assert Inverts(read, show, items[0]);
      ReadPrinted(read, show, items[1..], n - 1);
      assert [items[0]] + items[1..][..n - 1] == items[..n];
      assert items[1..][n - 1..] == items[n..];
    }
  }

  lemma {:induction false} ReadTooMany<T>(read: Reader<T>, show: T -> string, items: seq<T>, n: nat)
    requires |items| < n && forall x | x in items :: Inverts(read, show, x)
    requires read("").Err?
    ensures ReadMany(read, PrintMany(show, items), n).Err?
  {
    if items != [] {
      assert Inverts(read, show, items[0]);
      ReadTooMany(read, show, items[1..], n - 1);
    }
  }

  predicate StartsWith(s: string, prefix: string) {
    prefix <= s
  }

  /** The value of a `field=value` line. */
  function RequireField(line: string, field: string): Result<string> {
    var prefix := field + "=";
    if StartsWith(line, prefix) then Ok(line[|prefix|..]) else Err
  }

  lemma RequireFieldOf(field: string, value: string)
    ensures RequireField(field + "=" + value, field) == Ok(value)
  {
    var line := field + "=" + value;
    assert line[..|field + "="|] == field + "=";
    assert line[|field + "="|..] == value;
  }

  // ---------------------------------------------------------------- decimal numerals

  predicate IsDigit(c: char) {
    '0' <= c <= '9'
  }

  predicate AllDigits(s: string) {
    forall c | c in s :: IsDigit(c)
  }

  function DigitChar(d: nat): (c: char)
    requires d < 10
    ensures IsDigit(c) && DigitValue(c) == d
  {
    ('0' as int + d) as char
  }

  function DigitValue(c: char): nat
    requires IsDigit(c)
  {
    c as int - '0' as int
  }

  /** `std::to_string` and `operator<<` on an unsigned integer. */
  function Digits(n: nat): (s: string)
    ensures s != "" && AllDigits(s)
  {
    if n < 10 then [DigitChar(n)] else Digits(n / 10) + [DigitChar(n % 10)]
  }

  function Value(s: string): nat
    requires AllDigits(s)
  {
    if s == "" then 0 else 10 * Value(s[..|s| - 1]) + DigitValue(s[|s| - 1])
  }

  /** `std::from_chars` on the whole text: digits only, at least one, and within the type's range. */
  function ParseNumber(s: string, max: nat): Result<nat> {
    if s != "" && AllDigits(s) && Value(s) <= max then Ok(Value(s)) else Err
  }

  lemma {:induction false} ValueOfDigits(n: nat)
    ensures Value(Digits(n)) == n
  {
    var s := Digits(n);
    if n < 10 {
      assert s[..|s| - 1] == "";
    } else {
      ValueOfDigits(n / 10);
      assert s[..|s| - 1] == Digits(n / 10);
    }
  }

  /** A numeral is never longer than any text with the same value: leading zeros are the only slack. */
  lemma {:induction false} DigitsShortest(s: string)
    requires s != "" && AllDigits(s)
    ensures |Digits(Value(s))| <= |s|
  {
    var front := s[..|s| - 1];
    assert DigitValue(s[|s| - 1]) < 10;
    if front == "" {
      assert Value(front) == 0;
    } else {
      DigitsShortest(front);
    }
  }

  function ZeroDigits(k: nat): (s: string)
    ensures |s| == k && forall i | 0 <= i < k :: s[i] == '0'
  {
    seq(k, _ => '0')
  }

  /** A numeral of value `n`: its digits after any number of zeros. */
  predicate NumeralOf(s: string, n: nat) {
    |s| >= |Digits(n)| && s == ZeroDigits(|s| - |Digits(n)|) + Digits(n)
  }

  lemma OneDigit(d: nat)
    requires d < 10
    ensures Digits(d) == [DigitChar(d)] && DigitChar(0) == '0'
  {
  }

  lemma NumeralAppend(front: string, v: nat, d: nat)
    requires NumeralOf(front, v) && d < 10
    ensures NumeralOf(front + [DigitChar(d)], 10 * v + d)
  {
    var s := front + [DigitChar(d)];
    if v == 0 {
      OneDigit(0);
      OneDigit(d);
      assert s == ZeroDigits(|front|) + Digits(d);
    } else {
      assert Digits(10 * v + d) == Digits(v) + [DigitChar(d)];
      assert s == ZeroDigits(|front| - |Digits(v)|) + Digits(10 * v + d);
    }
  }

  lemma {:induction false} DigitsAreNumeral(s: string)
    requires s != "" && AllDigits(s)
    ensures NumeralOf(s, Value(s))
  {
    var front, d := s[..|s| - 1], DigitValue(s[|s| - 1]);
    assert s == front + [DigitChar(d)];
    if front == "" {
      assert d < 10 && Value(front) == 0;
      OneDigit(d);
      assert s == ZeroDigits(0) + Digits(d);
    } else {
      DigitsAreNumeral(front);
      NumeralAppend(front, Value(front), d);
    }
  }

  lemma {:induction false} NumeralValue(k: nat, n: nat)
    ensures AllDigits(ZeroDigits(k) + Digits(n)) && Value(ZeroDigits(k) + Digits(n)) == n
    decreases n
  {
    var s := ZeroDigits(k) + Digits(n);
    if n < 10 {
      assert s[..|s| - 1] == ZeroDigits(k);
      ValueOfZeros(k);
    } else {
      NumeralValue(k, n / 10);
      assert s[..|s| - 1] == ZeroDigits(k) + Digits(n / 10);
    }
  }

  lemma {:induction false} ValueOfZeros(k: nat)
    ensures AllDigits(ZeroDigits(k)) && Value(ZeroDigits(k)) == 0
  {
    if k > 0 {
      assert ZeroDigits(k)[..k - 1] == ZeroDigits(k - 1);
      ValueOfZeros(k - 1);
    }
  }

  /** Exactly the numerals of numbers in range are parsed, leading zeros allowed. */
  lemma ParseNumberIff(s: string, max: nat, n: nat)
    ensures ParseNumber(s, max) == Ok(n) <==> n <= max && NumeralOf(s, n)
  {
    if s != "" && AllDigits(s) {
      DigitsAreNumeral(s);
    }
    if NumeralOf(s, n) {
      NumeralValue(|s| - |Digits(n)|, n);
    }
  }

  lemma ParseOfDigits(n: nat, max: nat)
    requires n <= max
    ensures ParseNumber(Digits(n), max) == Ok(n)
  {
    ValueOfDigits(n);
  }

  lemma DigitsPlain(n: nat)
    ensures PlainLine(Digits(n)) && ',' !in Digits(n) && ' ' !in Digits(n)
  {
  }

  // ---------------------------------------------------------------- field lines

  function FieldLine(field: string, value: string): string {
    field + "=" + value + "\n"
  }

  function ReadField(text: string, field: string): (r: Result<(string, string)>)
    ensures r.Ok? ==> |r.value.1| < |text|
  {
    var (line, rest) :- ReadTextLine(text);
    var value :- RequireField(line, field);
    Ok((value, rest))
  }

  function ReadNumberField(text: string, field: string, max: nat): Result<(nat, string)> {
    var (value, rest) :- ReadField(text, field);
    var n :- ParseNumber(value, max);
    Ok((n, rest))
  }

  lemma ReadFieldOf(field: string, value: string, rest: string)
    requires PlainLine(field) && PlainLine(value)
    ensures ReadField(FieldLine(field, value) + rest, field) == Ok((value, rest))
  {
    var line := field + "=" + value;
    assert FieldLine(field, value) + rest == line + "\n" + rest;
    ReadTextLineOfLine(line, rest);
    RequireFieldOf(field, value);
  }

  lemma ReadNumberFieldOf(field: string, n: nat, max: nat, rest: string)
    requires PlainLine(field) && n <= max
    ensures ReadNumberField(FieldLine(field, Digits(n)) + rest, field, max) == Ok((n, rest))
  {
    DigitsPlain(n);
    ReadFieldOf(field, Digits(n), rest);
    ParseOfDigits(n, max);
  }
}
