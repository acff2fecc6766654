/**
 One direction of a TCP connection as a byte stream (src/protocol.cpp:368-439).  The network may cut
 what is sent and what is received anywhere: every `Send` and `Recv` moves some non-empty part.
 */
module Streams {
  import opened Base
  import opened Text
  import opened Protocol

  datatype Received = Data(bytes: string) | Closed | Failed

  class Stream {
    /** Bytes sent and not yet received; the sender closes after the last of them. */
    var pending: string
    /** No operation on a healthy stream reports an I/O error. */
    const healthy: bool

    constructor (healthy: bool)
      ensures pending == "" && this.healthy == healthy
    {
      pending := "";
      this.healthy := healthy;
    }

    /** `send`: takes some non-empty front part of `data`, or fails. */
    method Send(data: string) returns (taken: Option<nat>)
      requires data != ""
      modifies this
      ensures healthy ==> taken.Some?
      ensures taken.Some? ==> 0 < taken.value <= |data| && pending == old(pending) + data[..taken.value]
      ensures taken.None? ==> pending == old(pending)
    {
      var fails: bool := *;
      if fails && !healthy {
        return None;
      }
      var n: nat :| 0 < n <= |data|;
      pending := pending + data[..n];
      return Some(n);
    }

    /** `recv`: hands over some non-empty front part of what is pending, at most `limit` bytes. */
    method Recv(limit: nat) returns (r: Received)
      requires limit > 0
      modifies this
      ensures healthy ==> !r.Failed?
      ensures r.Data? ==> 0 < |r.bytes| <= limit && old(pending) == r.bytes + pending
      ensures r.Closed? ==> old(pending) == "" && pending == ""
      ensures r.Failed? ==> pending == old(pending)
    {
      var fails: bool := *;
      if fails && !healthy {
        return Failed;
      }
      if pending == "" {
        return Closed;
      }
      var n: nat :| 0 < n <= limit && n <= |pending|;
      r := Data(pending[..n]);
      pending := pending[n..];
    }
  }

  // ---------------------------------------------------------------- write_all

  method WriteAll(stream: Stream, data: string) returns (ok: bool)
    modifies stream
    ensures stream.healthy ==> ok
    ensures ok ==> stream.pending == old(stream.pending) + data
    ensures old(stream.pending) <= stream.pending <= old(stream.pending) + data
    ensures !ok ==> stream.pending != old(stream.pending) + data
  {
    var offset := 0;
    while offset < |data|
      invariant offset <= |data|
      invariant stream.pending == old(stream.pending) + data[..offset]
    {
      var taken := stream.Send(data[offset..]);
      if taken.None? {
        return false;
      }
      assert data[..offset] + data[offset..][..taken.value] == data[..offset + taken.value];
      offset := offset + taken.value;
    }
    assert data[..offset] == data;
    return true;
  }

  predicate Between(low: string, s: string, high: string) {
    low <= s <= high
  }

  /** All of `text` has been sent, or sending it failed part of the way and then some of `fallback` was sent. */
  ghost predicate Attempted(before: string, after: string, text: string, fallback: string) {
    || after == before + text
    || exists mid: string ::
         Between(before, mid, before + text) && mid != before + text && Between(mid, after, mid + fallback)
  }

  lemma CutShort(before: string, mid: string, after: string, text: string, fallback: string)
    requires before <= mid <= before + text && mid <= after <= mid + fallback
    requires mid == before + text ==> after == mid
    ensures Attempted(before, after, text, fallback)
  {
    if mid != before + text {
      assert Between(before, mid, before + text) && Between(mid, after, mid + fallback);
    }
  }

  // ---------------------------------------------------------------- read_exact

  /** Fills `output`; what it stores and what stays pending do not depend on how the bytes arrive. */
  method ReadExact(stream: Stream, output: array<char>) returns (ok: bool)
    modifies stream, output
    ensures stream.healthy ==> (ok <==> output.Length <= |old(stream.pending)|)
    ensures ok ==> old(stream.pending) == output[..] + stream.pending
  {
    var offset := 0;
    while offset < output.Length
      invariant offset <= output.Length
      invariant old(stream.pending) == output[..offset] + stream.pending
      decreases output.Length - offset
    {
      var r := stream.Recv(output.Length - offset);
      if !r.Data? {
        return false;
      }
      ghost var before := output[..offset];
      forall k | 0 <= k < |r.bytes| {
        output[offset + k] := r.bytes[k];
      }
      assert output[..offset + |r.bytes|] == before + r.bytes;
      assert before + (r.bytes + stream.pending) == before + r.bytes + stream.pending;
      offset := offset + |r.bytes|;
    }
    assert output[..offset] == output[..];
    return true;
  }

  // ---------------------------------------------------------------- read_line

  /** The text without its carriage returns. */
  function WithoutReturns(s: string): (t: string)
    ensures '\r' !in t && |t| <= |s|
  {
    if s == "" then ""
    else if s[|s| - 1] == '\r' then WithoutReturns(s[..|s| - 1])
    else WithoutReturns(s[..|s| - 1]) + [s[|s| - 1]]
  }

  /** The header line at the front of `bytes`, and what follows its newline. */
  function LineOf(bytes: string, max: nat): Result<(string, string)> {
    var i := IndexOf(bytes, '\n');
    if i == |bytes| then Err else
      var line := WithoutReturns(bytes[..i]);
      if AllPrintable(line) && |line| <= max then Ok((line, bytes[i + 1..])) else Err
  }

  lemma {:induction false} ReturnsSplit(a: string, b: string)
    ensures WithoutReturns(a + b) == WithoutReturns(a) + WithoutReturns(b)
  {
    if b == "" {
      assert a + b == a;
    } else {
      var front := b[..|b| - 1];
      assert (a + b)[..|a + b| - 1] == a + front;
      ReturnsSplit(a, front);
    }
  }

  lemma LineRefused(bytes: string, i: nat, max: nat)
    requires i < |bytes| && forall k | 0 <= k <= i :: bytes[k] != '\n'
    requires !Printable(bytes[i]) || |WithoutReturns(bytes[..i])| >= max
    requires bytes[i] != '\r'
    ensures LineOf(bytes, max).Err?
  {
    var j := IndexOf(bytes, '\n');
    if j < |bytes| {
      assert i < j;
      assert bytes[..j] == bytes[..i + 1] + bytes[i + 1..j];
      ReturnsSplit(bytes[..i + 1], bytes[i + 1..j]);
      assert bytes[..i + 1][..i] == bytes[..i];
      var kept := WithoutReturns(bytes[..i]);
      assert WithoutReturns(bytes[..i + 1]) == kept + [bytes[i]];
      assert WithoutReturns(bytes[..j])[|kept|] == bytes[i];
    }
  }

  lemma ReadOneMore(bytes: string, taken: nat, c: char, rest: string)
    requires taken <= |bytes| && bytes[taken..] == [c] + rest
    ensures taken < |bytes| && bytes[taken] == c && rest == bytes[taken + 1..]
    ensures bytes[..taken + 1] == bytes[..taken] + [c]
    ensures WithoutReturns(bytes[..taken + 1])
         == if c == '\r' then WithoutReturns(bytes[..taken]) else WithoutReturns(bytes[..taken]) + [c]
  {
    assert |bytes[taken..]| > 0;
    assert bytes[taken..][0] == c && bytes[taken..][1..] == bytes[taken + 1..];
    assert bytes[..taken + 1][..taken] == bytes[..taken];
  }

  lemma LineFound(bytes: string, taken: nat, max: nat)
    requires taken < |bytes| && bytes[taken] == '\n' && '\n' !in bytes[..taken]
    requires AllPrintable(WithoutReturns(bytes[..taken])) && |WithoutReturns(bytes[..taken])| <= max
    ensures LineOf(bytes, max) == Ok((WithoutReturns(bytes[..taken]), bytes[taken + 1..]))
  {
    assert forall k | 0 <= k < taken :: bytes[k] == bytes[..taken][k];
    IndexOfUnique(bytes, '\n', taken);
  }

  method ReadLine(stream: Stream, max: nat) returns (r: Result<string>)
    requires 0 < max <= MAX_HEADER_BYTES
    modifies stream
    ensures r.Ok? ==> LineOf(old(stream.pending), max) == Ok((r.value, stream.pending))
    ensures stream.healthy && r.Err? ==> LineOf(old(stream.pending), max).Err?
  {
    ghost var bytes := stream.pending;
    ghost var taken := 0;
    var result := "";
    while true
      invariant taken <= |bytes| && stream.pending == bytes[taken..]
      invariant '\n' !in bytes[..taken]
      invariant result == WithoutReturns(bytes[..taken])
      invariant AllPrintable(result) && |result| <= max
      decreases |stream.pending|
    {
      var received := stream.Recv(1);
      if !received.Data? {
        assert received.Closed? ==> bytes[..taken] == bytes;
        return Err;
      }
      var c := received.bytes[0];
      ReadOneMore(bytes, taken, c, stream.pending);
      if c == '\n' {
        LineFound(bytes, taken, max);
        return Ok(result);
      }
      if c != '\r' {
        if !Printable(c) || |result| >= max {
          LineRefused(bytes, taken, max);
          return Err;
        }
        result := result + [c];
      }
      taken := taken + 1;
    }
  }

  /** Carriage returns in a header line count for nothing, wherever they stand. */
  lemma ReturnsIgnored(a: string, b: string, rest: string, max: nat)
    requires '\n' !in a && '\n' !in b
    ensures LineOf(a + "\r" + b + "\n" + rest, max) == LineOf(a + b + "\n" + rest, max)
  {
    LineSplits(a + "\r" + b, rest, max);
    LineSplits(a + b, rest, max);
    ReturnsSplit(a + "\r", b);
    ReturnsSplit(a, "\r");
    ReturnsSplit(a, b);
    assert WithoutReturns("\r") == "";
  }

  lemma LineSplits(raw: string, rest: string, max: nat)
    requires '\n' !in raw
    ensures var line := WithoutReturns(raw);
            LineOf(raw + "\n" + rest, max) == if AllPrintable(line) && |line| <= max then Ok((line, rest)) else Err
  {
    var bytes := raw + "\n" + rest;
    assert bytes[..|raw|] == raw && bytes[|raw| + 1..] == rest;
    IndexOfUnique(bytes, '\n', |raw|);
  }

  /** Without a newline there is no line. */
  lemma UnendedLineRefused(bytes: string, max: nat)
    requires '\n' !in bytes
    ensures LineOf(bytes, max).Err?
  {
    IndexOfNone(bytes, '\n');
  }

  lemma {:induction false} NoReturns(s: string)
    requires '\r' !in s
    ensures WithoutReturns(s) == s
  {
    if s != "" {
      NoReturns(s[..|s| - 1]);
      assert s == s[..|s| - 1] + [s[|s| - 1]];
    }
  }

  /** A printable line is read back exactly, whatever bytes follow its newline. */
  lemma LineOfLine(line: string, rest: string, max: nat)
    requires AllPrintable(line) && |line| <= max
    ensures LineOf(line + "\n" + rest, max) == Ok((line, rest))
  {
    var bytes := line + "\n" + rest;
    assert bytes[..|line|] == line;
    assert !Printable('\n') && !Printable('\r');
    IndexOfUnique(bytes, '\n', |line|);
    NoReturns(line);
    assert bytes[|line| + 1..] == rest;
  }
}
