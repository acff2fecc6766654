/** Control headers: bounded, printable, space-separated lines (src/protocol.cpp:86-142, 441-495). */
module Protocol {
  import opened Base
  import opened Text
  import opened Crypto
  import opened ChunkLists

  const MAX_HEADER_BYTES: nat := 8192
  const MAX_ATOM: nat := 128

  predicate Printable(c: char) {
    32 <= c as int <= 126
  }

  predicate AllPrintable(s: string) {
    forall c | c in s :: Printable(c)
  }

  /** A header field that can stand between single spaces. */
  predicate IsWord(s: string) {
    s != "" && forall c | c in s :: Printable(c) && c != ' '
  }

  predicate AtomChar(c: char) {
    'a' <= c <= 'z' || 'A' <= c <= 'Z' || '0' <= c <= '9' || c == '-' || c == '_' || c == '.' || c == ':'
  }

  predicate SafeAtom(s: string) {
    0 < |s| <= MAX_ATOM && forall c | c in s :: AtomChar(c)
  }

  lemma AtomIsWord(s: string)
    requires SafeAtom(s)
    ensures IsWord(s)
  {
    forall c | c in s ensures Printable(c) && c != ' ' {
      assert AtomChar(c);
    }
  }

  // ---------------------------------------------------------------- splitting a header

  predicate WellFormedHeader(header: string) {
    && 0 < |header| <= MAX_HEADER_BYTES
    && AllPrintable(header)
    && "" !in Split(header, ' ')
  }

  /** The fields of a well-formed header. */
  function HeaderFields(header: string): Result<seq<string>> {
    if WellFormedHeader(header) then Ok(Split(header, ' ')) else Err
  }

  /** The scan has cut `fields` off the front and stands at `index` inside the field that began at `start`. */
  ghost predicate Scanned(header: string, fields: seq<string>, start: nat, index: nat) {
    && start <= index <= |header|
    && Split(header, ' ') == fields + Split(header[start..], ' ')
    && (forall k | start <= k < index :: header[k] != ' ')
    && (forall k | 0 <= k < index :: Printable(header[k]))
    && "" !in fields
  }

  /** `split_header`, and `split_response` in the tracker client, which is the same loop. */
  method SplitHeader(header: string) returns (r: Result<seq<string>>)
    ensures r == HeaderFields(header)
  {
    if header == "" || |header| > MAX_HEADER_BYTES {
      return Err;
    }
    var fields: seq<string> := [];
    var start: nat := 0;
    ScanStart(header);
    for index := 0 to |header|
      invariant Scanned(header, fields, start, index)
    {
      var scan :- ScanOne(header, fields, start, index);
      fields, start := scan.0, scan.1;
    }
    ScanEnd(header, fields, start);
    return if start == |header| then Err else Ok(fields + [header[start..]]);
  }

  /** One turn of the loop: the character at `index`. */
  method ScanOne(header: string, fields: seq<string>, start: nat, index: nat) returns (r: Result<(seq<string>, nat)>)
    requires index < |header| && Scanned(header, fields, start, index)
    ensures r.Err? ==> HeaderFields(header).Err?
    ensures r.Ok? ==> Scanned(header, r.value.0, r.value.1, index + 1)
  {
    if !Printable(header[index]) {
      assert header[index] in header;
      return Err;
    }
    if header[index] != ' ' {
      ScanOver(header, fields, start, index);
      return Ok((fields, start));
    }
    ScanCut(header, fields, start, index);
    if index == start {
      return Err;
    }
    return Ok((fields + [header[start..index]], index + 1));
  }

  lemma ScanStart(header: string)
    ensures Scanned(header, [], 0, 0)
  {
    assert header[0..] == header;
    assert [] + Split(header, ' ') == Split(header, ' ');
  }

  lemma CutRest(header: string, start: nat, index: nat)
    requires start <= index < |header| && header[index] == ' '
    requires forall k | start <= k < index :: header[k] != ' '
    ensures Split(header[start..], ' ') == [header[start..index]] + Split(header[index + 1..], ' ')
  {
    var rest, n := header[start..], index - start;
    assert rest[..n] == header[start..index];
    assert rest[n + 1..] == header[index + 1..];
    SplitAt(rest, ' ', n);
  }

  lemma InMiddle(front: seq<string>, x: string, back: seq<string>)
    ensures front + ([x] + back) == front + [x] + back
    ensures x in front + ([x] + back)
  {
    assert (front + ([x] + back))[|front|] == x;
  }

  lemma ScanOver(header: string, fields: seq<string>, start: nat, index: nat)
    requires index < |header| && Scanned(header, fields, start, index) && Printable(header[index])
    requires header[index] != ' '
    ensures Scanned(header, fields, start, index + 1)
  {
  }

  lemma ScanCut(header: string, fields: seq<string>, start: nat, index: nat)
    requires index < |header| && Scanned(header, fields, start, index) && header[index] == ' '
    ensures index == start ==> HeaderFields(header).Err?
    ensures index != start ==> Scanned(header, fields + [header[start..index]], index + 1, index + 1)
  {
    CutRest(header, start, index);
    InMiddle(fields, header[start..index], Split(header[index + 1..], ' '));
  }

  lemma ScanEnd(header: string, fields: seq<string>, start: nat)
    requires Scanned(header, fields, start, |header|)
    requires 0 < |header| <= MAX_HEADER_BYTES
    ensures HeaderFields(header) == if start == |header| then Err else Ok(fields + [header[start..]])
  {
    IndexOfNone(header[start..], ' ');
    InMiddle(fields, header[start..], []);
  }

  /** Text of a header with the given fields. */
  function HeaderText(fields: seq<string>): string {
    Join(fields, ' ')
  }

  lemma {:induction false} JoinPrintable(fields: seq<string>)
    requires forall f | f in fields :: AllPrintable(f)
    ensures AllPrintable(HeaderText(fields))
  {
    if |fields| == 1 {
      assert AllPrintable(fields[0]);
    } else if |fields| > 1 {
      JoinPrintable(fields[1..]);
      assert AllPrintable(fields[0]);
      assert HeaderText(fields) == fields[0] + [' '] + HeaderText(fields[1..]);
    }
  }

  /** Fields that are words come back from the header they were joined into, as long as it fits. */
  lemma HeaderFieldsOf(fields: seq<string>)
    requires fields != [] && forall f | f in fields :: IsWord(f)
    ensures HeaderFields(HeaderText(fields)) == if |HeaderText(fields)| <= MAX_HEADER_BYTES then Ok(fields) else Err
  {
    SplitJoin(fields, ' ');
    forall f | f in fields ensures AllPrintable(f) {
      assert IsWord(f);
    }
    JoinPrintable(fields);
    if |fields| > 1 {
      JoinCons(fields[0], fields[1..], ' ');
      assert [fields[0]] + fields[1..] == fields;
    }
    assert IsWord(fields[0]);
  }

  /** An accepted header is the text of its fields, and they are words. */
  lemma HeaderFieldsSound(header: string)
    requires HeaderFields(header).Ok?
    ensures HeaderText(HeaderFields(header).value) == header
    ensures forall f | f in HeaderFields(header).value :: IsWord(f)
  {
    var fields := Split(header, ' ');
    JoinSplit(header, ' ');
    FieldsPrintable(fields);
  }

  lemma {:induction false} FieldsPrintable(fields: seq<string>)
    requires AllPrintable(HeaderText(fields))
    ensures forall f | f in fields :: AllPrintable(f)
  {
    if |fields| > 1 {
      var tail := HeaderText(fields[1..]);
      var all := HeaderText(fields);
      assert all == fields[0] + [' '] + tail;
      forall c | c in tail ensures Printable(c) {
        assert c in all;
      }
      forall c | c in fields[0] ensures Printable(c) {
        assert c in all;
      }
      FieldsPrintable(fields[1..]);
      assert fields == [fields[0]] + fields[1..];
    }
  }

  datatype Endpoint = Endpoint(host: string, port: nat)

  datatype DiscoveredPeer = DiscoveredPeer(id: string, endpoint: Endpoint, chunks: seq<nat>, hasAll: bool)

  // ---------------------------------------------------------------- tracker requests

  datatype TrackerRequest =
    | Announce(token: string, swarm: string, peer: string, port: nat, hasAll: bool, chunks: seq<nat>)
    | Peers(token: string, swarm: string)

  predicate ValidPort(port: nat) {
    0 < port <= MAX_UINT16
  }

  function ParseAnnounceFields(fields: seq<string>): Result<TrackerRequest>
    requires |fields| == 6
  {
    if !(SafeAtom(fields[1]) && SafeAtom(fields[2]) && SafeAtom(fields[3])) then Err else
      var port :- ParseNumber(fields[4], MAX_UINT32);
      if !ValidPort(port) then Err else
        var chunks :- ParseList(fields[5]);
        Ok(Announce(fields[1], fields[2], fields[3], port, fields[5] == "all", chunks))
  }

  function ParseRequestFields(fields: seq<string>): Result<TrackerRequest>
    requires fields != []
  {
    if fields[0] == "ANNOUNCE" then
      if |fields| != 6 then Err else ParseAnnounceFields(fields)
    else if fields[0] == "PEERS" then
      if |fields| == 3 && SafeAtom(fields[1]) && SafeAtom(fields[2]) then Ok(Peers(fields[1], fields[2])) else Err
    else Err
  }

  function ParseTrackerRequest(header: string): Result<TrackerRequest> {
    var fields :- HeaderFields(header);
    ParseRequestFields(fields)
  }

  /** What every parsed announcement satisfies. */
  predicate ValidAnnounce(r: TrackerRequest) {
    && r.Announce?
    && SafeAtom(r.token) && SafeAtom(r.swarm) && SafeAtom(r.peer) && ValidPort(r.port)
    && StrictlyIncreasing(r.chunks) && Bounded(r.chunks)
    && (r.hasAll ==> r.chunks == [])
  }

  lemma ParsedAnnounceValid(header: string)
    requires ParseTrackerRequest(header).Ok? && ParseTrackerRequest(header).value.Announce?
    ensures ValidAnnounce(ParseTrackerRequest(header).value)
  {
  }

  function AnnounceFields(r: TrackerRequest): (fields: seq<string>)
    requires ValidAnnounce(r)
    ensures |fields| == 6
  {
    ["ANNOUNCE", r.token, r.swarm, r.peer, Digits(r.port), Encode(r.chunks, r.hasAll).value]
  }

  lemma DigitsAreWord(n: nat)
    ensures IsWord(Digits(n))
  {
    forall c | c in Digits(n) ensures Printable(c) && c != ' ' {
      assert IsDigit(c);
    }
  }

  lemma EncodedIsWord(xs: seq<nat>, all: bool)
    requires StrictlyIncreasing(xs)
    ensures Encode(xs, all).Ok? && IsWord(Encode(xs, all).value)
  {
    if !all && xs != [] {
      ListTextChars(xs);
      forall c | c in ListText(xs) ensures Printable(c) && c != ' ' {
        assert ListChar(c);
      }
    }
  }

  lemma AnnounceFieldsAreWords(r: TrackerRequest)
    requires ValidAnnounce(r)
    ensures forall f | f in AnnounceFields(r) :: IsWord(f)
  {
    AtomIsWord(r.token);
    AtomIsWord(r.swarm);
    AtomIsWord(r.peer);
    DigitsAreWord(r.port);
    EncodedIsWord(r.chunks, r.hasAll);
  }

  lemma ParseOfAnnounceFields(r: TrackerRequest)
    requires ValidAnnounce(r)
    ensures ParseRequestFields(AnnounceFields(r)) == Ok(r)
  {
    var fields := AnnounceFields(r);
    ParseOfDigits(r.port, MAX_UINT32);
    ParseEncoded(r.chunks, r.hasAll);
    assert ParseNumber(fields[4], MAX_UINT32) == Ok(r.port);
    assert ParseList(fields[5]) == Ok(r.chunks);
    assert fields[5] == "all" <==> r.hasAll;
  }

  /** Every announcement that fits is parsed back to itself. */
  lemma AnnounceRoundTrip(r: TrackerRequest)
    requires ValidAnnounce(r)
    ensures ParseTrackerRequest(HeaderText(AnnounceFields(r)))
         == if |HeaderText(AnnounceFields(r))| <= MAX_HEADER_BYTES then Ok(r) else Err
  {
    AnnounceFieldsAreWords(r);
    HeaderFieldsOf(AnnounceFields(r));
    ParseOfAnnounceFields(r);
  }

  // ---------------------------------------------------------------- chunk requests and DATA headers

  datatype ChunkRequest = ChunkRequest(token: string, swarm: string, index: nat)

  function ParseChunkRequest(header: string): Result<ChunkRequest> {
    var fields :- HeaderFields(header);
    if |fields| != 4 || fields[0] != "GET" || !SafeAtom(fields[1]) || !SafeAtom(fields[2]) then Err else
      var index :- ParseNumber(fields[3], MAX_UINT32);
      Ok(ChunkRequest(fields[1], fields[2], index))
  }

  function GetFields(q: ChunkRequest): seq<string> {
    ["GET", q.token, q.swarm, Digits(q.index)]
  }

  lemma Length2(a: string, b: string)
    ensures |HeaderText([a, b])| == |a| + |b| + 1
  {
    assert [a, b] == [a] + [b];
    JoinCons(a, [b], ' ');
  }

  lemma Length3(a: string, b: string, c: string)
    ensures |HeaderText([a, b, c])| == |a| + |b| + |c| + 2
  {
    assert [a, b, c] == [a] + [b, c];
    JoinCons(a, [b, c], ' ');
    Length2(b, c);
  }

  lemma Length4(a: string, b: string, c: string, d: string)
    ensures |HeaderText([a, b, c, d])| == |a| + |b| + |c| + |d| + 3
  {
    assert [a, b, c, d] == [a] + [b, c, d];
    JoinCons(a, [b, c, d], ' ');
    Length3(b, c, d);
  }

  lemma Length5(a: string, b: string, c: string, d: string, e: string)
    ensures |HeaderText([a, b, c, d, e])| == |a| + |b| + |c| + |d| + |e| + 4
  {
    assert [a, b, c, d, e] == [a] + [b, c, d, e];
    JoinCons(a, [b, c, d, e], ' ');
    Length4(b, c, d, e);
  }

  lemma Length6(a: string, b: string, c: string, d: string, e: string, f: string)
    ensures |HeaderText([a, b, c, d, e, f])| == |a| + |b| + |c| + |d| + |e| + |f| + 5
  {
    assert [a, b, c, d, e, f] == [a] + [b, c, d, e, f];
    JoinCons(a, [b, c, d, e, f], ' ');
    Length5(b, c, d, e, f);
  }

  lemma {:induction false} DigitsLengthBound(n: nat, k: nat)
    requires k > 0 && n < Power10(k)
    ensures |Digits(n)| <= k
    decreases k
  {
    if n >= 10 {
      assert k > 1;
      DigitsLengthBound(n / 10, k - 1);
    }
  }

  function Power10(k: nat): nat {
    if k == 0 then 1 else 10 * Power10(k - 1)
  }

  lemma Uint32Length(n: nat)
    requires n <= MAX_UINT32
    ensures |Digits(n)| <= 10
  {
    assert Power10(10) == 10_000_000_000 by {
      assert Power10(4) == 10_000;
      assert Power10(8) == 100_000_000;
    }
    DigitsLengthBound(n, 10);
  }

  /** Every chunk request a downloader can form is parsed back to itself; it always fits. */
  lemma GetRoundTrip(q: ChunkRequest)
    requires SafeAtom(q.token) && SafeAtom(q.swarm) && q.index <= MAX_UINT32
    ensures |HeaderText(GetFields(q))| <= MAX_HEADER_BYTES
    ensures ParseChunkRequest(HeaderText(GetFields(q))) == Ok(q)
  {
    AtomIsWord(q.token);
    AtomIsWord(q.swarm);
    DigitsAreWord(q.index);
    Uint32Length(q.index);
    Length4("GET", q.token, q.swarm, Digits(q.index));
    HeaderFieldsOf(GetFields(q));
    ParseOfDigits(q.index, MAX_UINT32);
  }

  datatype DataHeader = DataHeader(count: nat, digest: string)

  function ParseDataHeader(header: string): (r: Result<DataHeader>)
    ensures r.Ok? ==> r.value.count <= MAX_CHUNK_BYTES && IsSha256Hex(r.value.digest)
  {
    var fields :- HeaderFields(header);
    if |fields| != 3 || fields[0] != "DATA" then Err else
      var count :- ParseNumber(fields[1], MAX_UINT32);
      if count > MAX_CHUNK_BYTES || !IsSha256Hex(fields[2]) then Err else Ok(DataHeader(count, fields[2]))
  }

  function DataFields(h: DataHeader): seq<string> {
    ["DATA", Digits(h.count), h.digest]
  }

  lemma DigestIsAtom(s: string)
    requires IsSha256Hex(s)
    ensures SafeAtom(s)
  {
    forall c | c in s ensures AtomChar(c) {
      assert LowerHexDigit(c);
    }
  }

  lemma DataRoundTrip(h: DataHeader)
    requires h.count <= MAX_CHUNK_BYTES && IsSha256Hex(h.digest)
    ensures |HeaderText(DataFields(h))| <= MAX_HEADER_BYTES
    ensures ParseDataHeader(HeaderText(DataFields(h))) == Ok(h)
  {
    DigestIsAtom(h.digest);
    AtomIsWord(h.digest);
    DigitsAreWord(h.count);
    Uint32Length(h.count);
    Length3("DATA", Digits(h.count), h.digest);
    HeaderFieldsOf(DataFields(h));
    ParseOfDigits(h.count, MAX_UINT32);
  }

  // ---------------------------------------------------------------- exactly which headers are accepted

  lemma NumeralIsWord(numeral: string, max: nat)
    requires ParseNumber(numeral, max).Ok?
    ensures IsWord(numeral)
  {
    forall c | c in numeral ensures Printable(c) && c != ' ' {
      assert IsDigit(c);
    }
  }

  /** A well-formed header is the text of its fields, which are words, and the text of words is well-formed if it fits. */
  lemma HeaderFieldsIff(header: string, fields: seq<string>)
    requires fields != []
    ensures HeaderFields(header) == Ok(fields) <==>
              |header| <= MAX_HEADER_BYTES && header == HeaderText(fields) && forall f | f in fields :: IsWord(f)
  {
    if HeaderFields(header) == Ok(fields) {
      HeaderFieldsSound(header);
    }
    if header == HeaderText(fields) && forall f | f in fields :: IsWord(f) {
      HeaderFieldsOf(fields);
    }
  }

  ghost predicate IsGet(line: string, q: ChunkRequest, numeral: string) {
    && line == HeaderText(["GET", q.token, q.swarm, numeral]) && |line| <= MAX_HEADER_BYTES
    && SafeAtom(q.token) && SafeAtom(q.swarm) && ParseNumber(numeral, MAX_UINT32) == Ok(q.index)
  }

  /** A line is parsed as a chunk request exactly when it is a GET of two atoms and a numeral. */
  lemma ChunkRequestIff(line: string, q: ChunkRequest)
    ensures ParseChunkRequest(line) == Ok(q) <==> exists numeral: string :: IsGet(line, q, numeral)
  {
    if ParseChunkRequest(line) == Ok(q) {
      var fields := HeaderFields(line).value;
      HeaderFieldsSound(line);
      assert fields == ["GET", q.token, q.swarm, fields[3]];
      assert IsGet(line, q, fields[3]);
    }
    if numeral :| IsGet(line, q, numeral) {
      AtomIsWord(q.token);
      AtomIsWord(q.swarm);
      NumeralIsWord(numeral, MAX_UINT32);
      HeaderFieldsOf(["GET", q.token, q.swarm, numeral]);
    }
  }

  ghost predicate IsData(line: string, h: DataHeader, numeral: string) {
    && line == HeaderText(["DATA", numeral, h.digest]) && |line| <= MAX_HEADER_BYTES
    && ParseNumber(numeral, MAX_UINT32) == Ok(h.count) && h.count <= MAX_CHUNK_BYTES && IsSha256Hex(h.digest)
  }

  /** A line is parsed as a data header exactly when it is DATA, a numeral up to the chunk limit and a digest. */
  lemma DataHeaderIff(line: string, h: DataHeader)
    ensures ParseDataHeader(line) == Ok(h) <==> exists numeral: string :: IsData(line, h, numeral)
  {
    if ParseDataHeader(line) == Ok(h) {
      var fields := HeaderFields(line).value;
      HeaderFieldsSound(line);
      assert fields == ["DATA", fields[1], h.digest];
      assert IsData(line, h, fields[1]);
    }
    if numeral :| IsData(line, h, numeral) {
      DigestIsAtom(h.digest);
      AtomIsWord(h.digest);
      NumeralIsWord(numeral, MAX_UINT32);
      HeaderFieldsOf(["DATA", numeral, h.digest]);
    }
  }

  ghost predicate IsPeers(line: string, r: TrackerRequest) {
    r.Peers? && line == HeaderText(["PEERS", r.token, r.swarm]) && SafeAtom(r.token) && SafeAtom(r.swarm)
  }

  ghost predicate IsAnnounce(line: string, r: TrackerRequest, port: string, list: string) {
    && r.Announce? && line == HeaderText(["ANNOUNCE", r.token, r.swarm, r.peer, port, list])
    && |line| <= MAX_HEADER_BYTES && SafeAtom(r.token) && SafeAtom(r.swarm) && SafeAtom(r.peer)
    && ParseNumber(port, MAX_UINT32) == Ok(r.port) && 1 <= r.port <= 65535
    && IsWord(list) && ParseList(list) == Ok(r.chunks) && (r.hasAll <==> list == "all")
  }

  /** A line is parsed as a tracker request exactly when it is a PEERS or an ANNOUNCE of the right shape. */
  lemma TrackerRequestIff(line: string, r: TrackerRequest)
    ensures ParseTrackerRequest(line) == Ok(r) <==>
              IsPeers(line, r) || exists port: string, list: string :: IsAnnounce(line, r, port, list)
  {
    if ParseTrackerRequest(line) == Ok(r) {
      TrackerRequestShape(line, r);
    }
    if IsPeers(line, r) {
      PeersParses(line, r);
    }
    if port, list :| IsAnnounce(line, r, port, list) {
      AnnounceParses(line, r, port, list);
    }
  }

  lemma PeersParses(line: string, r: TrackerRequest)
    requires IsPeers(line, r)
    ensures ParseTrackerRequest(line) == Ok(r)
  {
    AtomIsWord(r.token);
    AtomIsWord(r.swarm);
    Length3("PEERS", r.token, r.swarm);
    HeaderFieldsOf(["PEERS", r.token, r.swarm]);
  }

  lemma AnnounceParses(line: string, r: TrackerRequest, port: string, list: string)
    requires IsAnnounce(line, r, port, list)
    ensures ParseTrackerRequest(line) == Ok(r)
  {
    AtomIsWord(r.token);
    AtomIsWord(r.swarm);
    AtomIsWord(r.peer);
    NumeralIsWord(port, MAX_UINT32);
    HeaderFieldsOf(["ANNOUNCE", r.token, r.swarm, r.peer, port, list]);
  }

  lemma TrackerRequestShape(line: string, r: TrackerRequest)
    requires ParseTrackerRequest(line) == Ok(r)
    ensures IsPeers(line, r) || exists port: string, list: string :: IsAnnounce(line, r, port, list)
  {
    var fields := HeaderFields(line).value;
    HeaderFieldsSound(line);
    if fields[0] == "ANNOUNCE" {
      assert fields == ["ANNOUNCE", r.token, r.swarm, r.peer, fields[4], fields[5]];
      assert IsWord(fields[5]);
      assert IsAnnounce(line, r, fields[4], fields[5]);
    } else {
      assert fields == ["PEERS", r.token, r.swarm];
    }
  }

  // ---------------------------------------------------------------- what an atom is

  /** An address as `getnameinfo` prints it without a zone: hexadecimal groups and colons, or dotted decimals. */
  predicate AddressChar(c: char) {
    '0' <= c <= '9' || 'a' <= c <= 'f' || c == ':' || c == '.'
  }

  /** Every ordinary host fits: dotted IPv4 and unzoned IPv6 addresses are atoms. */
  lemma AddressIsAtom(host: string)
    requires 0 < |host| <= 70 && forall c | c in host :: AddressChar(c)
    ensures SafeAtom(host)
  {
  }

  /** Letters, digits, hyphens and underscores make an atom of up to 128 characters. */
  lemma NameIsAtom(name: string)
    requires 0 < |name| <= 128
    requires forall c | c in name ::
               'a' <= c <= 'z' || 'A' <= c <= 'Z' || '0' <= c <= '9' || c == '-' || c == '_'
    ensures SafeAtom(name)
  {
  }

  lemma Ipv4IsAtom(a: nat, b: nat, c: nat, d: nat)
    requires a <= 255 && b <= 255 && c <= 255 && d <= 255
    ensures var host := Digits(a) + "." + Digits(b) + "." + Digits(c) + "." + Digits(d);
            SafeAtom(host) && |host| <= 15
  {
    OctetLength(a);
    OctetLength(b);
    OctetLength(c);
    OctetLength(d);
    var host := Digits(a) + "." + Digits(b) + "." + Digits(c) + "." + Digits(d);
    forall ch | ch in host
      ensures AddressChar(ch)
    {
      assert IsDigit(ch) || ch == '.';
    }
    AddressIsAtom(host);
  }

  lemma OctetLength(n: nat)
    requires n <= 255
    ensures |Digits(n)| <= 3
  {
    assert Power10(3) == 1000;
    DigitsLengthBound(n, 3);
  }
}
