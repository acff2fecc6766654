/**
 Hexadecimal text and token comparison (src/crypto.cpp).  A byte is a `char` below 256.
 SHA-256 itself is a parameter of type `Hash` wherever a digest is needed.
 */
module Crypto {
  import opened Base

  /** The digest function: any total function; `ProducesDigests` states the shape of its results. */
  type Hash = string -> string

  predicate IsByte(c: char) {
    c as int < 256
  }

  predicate IsBytes(s: string) {
    forall c | c in s :: IsByte(c)
  }

  predicate LowerHexDigit(c: char) {
    '0' <= c <= '9' || 'a' <= c <= 'f'
  }

  predicate IsSha256Hex(s: string) {
    |s| == 64 && forall c | c in s :: LowerHexDigit(c)
  }

  ghost predicate ProducesDigests(hash: Hash) {
    forall bytes :: IsSha256Hex(hash(bytes))
  }

  // ---------------------------------------------------------------- nibbles

  function HexChar(n: nat): (c: char)
    requires n < 16
    ensures LowerHexDigit(c) && Nibble(c) == n
  {
    if n < 10 then ('0' as int + n) as char else ('a' as int + (n - 10)) as char
  }

  /** Value of a hexadecimal digit of either case, or -1. */
  function Nibble(c: char): (n: int)
    ensures -1 <= n < 16
  {
    if '0' <= c <= '9' then c as int - '0' as int
    else if 'a' <= c <= 'f' then c as int - 'a' as int + 10
    else if 'A' <= c <= 'F' then c as int - 'A' as int + 10
    else -1
  }

  // ---------------------------------------------------------------- encoding

  /** Two lowercase digits per byte, high nibble first. */
  function HexOf(s: string): (t: string)
    requires IsBytes(s)
    ensures |t| == 2 * |s|
    ensures forall k | 0 <= k < |t| :: LowerHexDigit(t[k])
  {
    if s == "" then ""
    else
      assert IsByte(s[|s| - 1]);
      HexOf(s[..|s| - 1]) + [HexChar(s[|s| - 1] as int / 16), HexChar(s[|s| - 1] as int % 16)]
  }

  method HexEncode(value: string) returns (encoded: string)
    requires IsBytes(value)
    ensures encoded == HexOf(value)
  {
    encoded := "";
    for i := 0 to |value|
      invariant encoded == HexOf(value[..i])
    {
      assert value[..i + 1][..i] == value[..i];
      assert IsByte(value[i]);
      encoded := encoded + [HexChar(value[i] as int / 16)];
      encoded := encoded + [HexChar(value[i] as int % 16)];
    }
    assert value[..|value|] == value;
  }

  // ---------------------------------------------------------------- decoding

  function DecodedByte(high: char, low: char): Result<char> {
    if Nibble(high) < 0 || Nibble(low) < 0 then Err
    else Ok((16 * Nibble(high) + Nibble(low)) as char)
  }

  /** The bytes named by a text of complete hexadecimal pairs. */
  function FromHex(t: string): (r: Result<string>)
    ensures r.Ok? ==> IsBytes(r.value) && |t| == 2 * |r.value|
  {
    if |t| % 2 != 0 then Err
    else if t == "" then Ok("")
    else
      var front :- FromHex(t[..|t| - 2]);
      var byte :- DecodedByte(t[|t| - 2], t[|t| - 1]);
      Ok(front + [byte])
  }

  lemma {:induction false} FromHexFailsOnPrefix(t: string, n: nat)
    requires |t| % 2 == 0 && n % 2 == 0 && n <= |t|
    requires FromHex(t[..n]).Err?
    ensures FromHex(t).Err?
    decreases |t|
  {
    if n < |t| {
      assert t[..|t| - 2][..n] == t[..n];
      FromHexFailsOnPrefix(t[..|t| - 2], n);
    } else {
      assert t[..n] == t;
    }
  }

  method HexDecode(value: string) returns (r: Result<string>)
    ensures r == FromHex(value)
  {
    if |value| % 2 != 0 {
      return Err;
    }
    var decoded := "";
    var index := 0;
    while index < |value|
      invariant index % 2 == 0 && index <= |value|
      invariant FromHex(value[..index]) == Ok(decoded)
    {
      var high := Nibble(value[index]);
      var low := Nibble(value[index + 1]);
      assert value[..index + 2][..index] == value[..index];
      if high < 0 || low < 0 {
        FromHexFailsOnPrefix(value, index + 2);
        return Err;
      }
      decoded := decoded + [(16 * high + low) as char];
      index := index + 2;
    }
    assert value[..|value|] == value;
    return Ok(decoded);
  }

  lemma ByteRoundTrip(c: char)
    requires IsByte(c)
    ensures DecodedByte(HexChar(c as int / 16), HexChar(c as int % 16)) == Ok(c)
  {
  }

  lemma PairCanonical(high: char, low: char)
    requires DecodedByte(high, low).Ok?
    ensures var c := DecodedByte(high, low).value as int;
            c / 16 == Nibble(high) && c % 16 == Nibble(low)
    ensures HexChar(Nibble(high)) == high <==> LowerHexDigit(high)
    ensures HexChar(Nibble(low)) == low <==> LowerHexDigit(low)
  {
  }

  lemma HexAppend(front: string, c: char)
    requires IsBytes(front) && IsByte(c)
    ensures IsBytes(front + [c])
    ensures HexOf(front + [c]) == HexOf(front) + [HexChar(c as int / 16), HexChar(c as int % 16)]
  {
    assert (front + [c])[..|front|] == front;
  }

  lemma FromHexAppend(front: string, high: char, low: char)
    requires FromHex(front).Ok?
    ensures FromHex(front + [high, low])
         == match DecodedByte(high, low) case Ok(c) => Ok(FromHex(front).value + [c]) case Err => Err
  {
    var t := front + [high, low];
    assert t[..|t| - 2] == front && t[|t| - 2] == high && t[|t| - 1] == low;
    FromHexStep(t);
  }

  lemma FromHexStep(t: string)
    requires |t| >= 2 && |t| % 2 == 0
    ensures FromHex(t) ==
              var front, byte := FromHex(t[..|t| - 2]), DecodedByte(t[|t| - 2], t[|t| - 1]);
              if front.Err? || byte.Err? then Err else Ok(front.value + [byte.value])
  {
  }

  predicate AnyHexDigit(c: char) {
    '0' <= c <= '9' || 'a' <= c <= 'f' || 'A' <= c <= 'F'
  }

  lemma PairDecodesIff(high: char, low: char)
    ensures DecodedByte(high, low).Ok? <==> AnyHexDigit(high) && AnyHexDigit(low)
  {
  }

  /** Exactly the texts of complete pairs of hexadecimal digits decode. */
  lemma {:induction false} FromHexIff(t: string)
    ensures FromHex(t).Ok? <==> |t| % 2 == 0 && forall k | 0 <= k < |t| :: AnyHexDigit(t[k])
  {
    if |t| % 2 == 0 && t != "" {
      var front := t[..|t| - 2];
      FromHexIff(front);
      PairDecodesIff(t[|t| - 2], t[|t| - 1]);
      assert forall k | 0 <= k < |front| :: front[k] == t[k];
    }
  }

  /** Decoding undoes encoding on every byte string. */
  lemma {:induction false} HexRoundTrip(s: string)
    requires IsBytes(s)
    ensures FromHex(HexOf(s)) == Ok(s)
  {
    if s != "" {
      var front, c := s[..|s| - 1], s[|s| - 1];
      assert s == front + [c];
      HexRoundTrip(front);
      HexAppend(front, c);
      ByteRoundTrip(c);
      FromHexAppend(HexOf(front), HexChar(c as int / 16), HexChar(c as int % 16));
    }
  }

  predicate AllLowerHex(t: string) {
    forall k | 0 <= k < |t| :: LowerHexDigit(t[k])
  }

  /** Encoding undoes decoding exactly on the lowercase texts: upper-case digits are the only ones normalised. */
  lemma {:induction false} HexCanonical(t: string)
    requires FromHex(t).Ok?
    ensures HexOf(FromHex(t).value) == t <==> AllLowerHex(t)
  {
    if t != "" {
      var front, high, low := t[..|t| - 2], t[|t| - 2], t[|t| - 1];
      assert t == front + [high, low];
      HexCanonical(front);
      PairCanonical(high, low);
      HexAppend(FromHex(front).value, DecodedByte(high, low).value);
      assert AllLowerHex(t) <==> AllLowerHex(front) && LowerHexDigit(high) && LowerHexDigit(low);
    }
  }
}
