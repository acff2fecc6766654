/**
 How an announcement travels: the tracker prints a stored peer as a PEER line and a client checks and
 parses it (src/tracker.cpp:42-55, 91-109, 291-296).
 */
module TrackerRelay {
  import opened Base
  import opened Text
  import opened ChunkLists
  import opened Protocol
  import opened Streams

  // ---------------------------------------------------------------- one PEER line

  /** The record the tracker keeps: the announced peer under the host its connection came from. */
  function Stored(r: TrackerRequest, host: string): DiscoveredPeer
    requires r.Announce?
  {
    DiscoveredPeer(r.peer, Endpoint(host, r.port), r.chunks, r.hasAll)
  }

  /** Peers as they are stored: everything but the host went through `parse_tracker_request`. */
  predicate ValidPeer(p: DiscoveredPeer) {
    && SafeAtom(p.id) && ValidPort(p.endpoint.port)
    && StrictlyIncreasing(p.chunks) && Bounded(p.chunks) && (p.hasAll ==> p.chunks == [])
  }

  function ChunkText(p: DiscoveredPeer): string
    requires ValidPeer(p)
  {
    Encode(p.chunks, p.hasAll).value
  }

  function PeerFields(p: DiscoveredPeer): seq<string>
    requires ValidPeer(p)
  {
    ["PEER", p.id, p.endpoint.host, Digits(p.endpoint.port), ChunkText(p)]
  }

  function PeerLine(p: DiscoveredPeer): string
    requires ValidPeer(p)
  {
    HeaderText(PeerFields(p))
  }

  /** The announcement a client rebuilds from a PEER line in order to validate it. */
  function CheckFields(id: string, port: string, chunks: string): seq<string> {
    ["ANNOUNCE", "check-token", "check-swarm", id, port, chunks]
  }

  function HostFields(host: string): seq<string> {
    ["PEERS", "check-token", host]
  }

  function ParsePeerFields(fields: seq<string>): Result<DiscoveredPeer> {
    if |fields| != 5 || fields[0] != "PEER" then Err else
      var validated :- ParseTrackerRequest(HeaderText(CheckFields(fields[1], fields[3], fields[4])));
      var _ :- ParseTrackerRequest(HeaderText(HostFields(fields[2])));
      if !validated.Announce? then Err else Ok(Stored(validated, fields[2]).(id := fields[1]))
  }

  /** `parse_peer_response`. */
  function ParsePeer(line: string): Result<DiscoveredPeer> {
    var fields :- HeaderFields(line);
    ParsePeerFields(fields)
  }

  /** Exactly when a stored peer survives the trip: both rebuilt texts fit and the host is an atom. */
  predicate Relayable(p: DiscoveredPeer)
    requires ValidPeer(p)
  {
    && SafeAtom(p.endpoint.host)
    && |PeerLine(p)| <= MAX_HEADER_BYTES
    && |HeaderText(CheckFields(p.id, Digits(p.endpoint.port), ChunkText(p)))| <= MAX_HEADER_BYTES
  }

  function CheckRequest(p: DiscoveredPeer): TrackerRequest {
    Announce("check-token", "check-swarm", p.id, p.endpoint.port, p.hasAll, p.chunks)
  }

  lemma CheckAtoms()
    ensures SafeAtom("check-token") && SafeAtom("check-swarm")
  {
  }

  /** The client's re-validation of the announced part accepts it exactly when the rebuilt header fits. */
  lemma CheckOutcome(p: DiscoveredPeer)
    requires ValidPeer(p)
    ensures var header := HeaderText(CheckFields(p.id, Digits(p.endpoint.port), ChunkText(p)));
            ParseTrackerRequest(header) == if |header| <= MAX_HEADER_BYTES then Ok(CheckRequest(p)) else Err
  {
    CheckAtoms();
    AnnounceRoundTrip(CheckRequest(p));
    assert AnnounceFields(CheckRequest(p)) == CheckFields(p.id, Digits(p.endpoint.port), ChunkText(p));
  }

  /** The client's re-validation of the host accepts exactly the atoms. */
  lemma HostOutcome(host: string)
    requires IsWord(host)
    ensures ParseTrackerRequest(HeaderText(HostFields(host)))
         == if SafeAtom(host) then Ok(Peers("check-token", host)) else Err
  {
    CheckAtoms();
    AtomIsWord("check-token");
    HeaderFieldsOf(HostFields(host));
    if SafeAtom(host) {
      Length3("PEERS", "check-token", host);
    }
  }

  lemma PeerFieldsAreWords(p: DiscoveredPeer)
    requires ValidPeer(p) && IsWord(p.endpoint.host)
    ensures forall f | f in PeerFields(p) :: IsWord(f)
  {
    AtomIsWord(p.id);
    DigitsAreWord(p.endpoint.port);
    EncodedIsWord(p.chunks, p.hasAll);
  }

  lemma FieldsOutcome(p: DiscoveredPeer)
    requires ValidPeer(p) && IsWord(p.endpoint.host)
    ensures ParsePeerFields(PeerFields(p))
         == if |HeaderText(CheckFields(p.id, Digits(p.endpoint.port), ChunkText(p)))| <= MAX_HEADER_BYTES
               && SafeAtom(p.endpoint.host) then Ok(p) else Err
  {
    CheckOutcome(p);
    HostOutcome(p.endpoint.host);
  }

  // ---------------------------------------------------------------- hosts that are not words

  function Spaces(s: string): nat {
    if s == "" then 0 else (if s[0] == ' ' then 1 else 0) + Spaces(s[1..])
  }

  lemma {:induction false} SpacesAdd(a: string, b: string)
    ensures Spaces(a + b) == Spaces(a) + Spaces(b)
  {
    if a == "" {
      assert a + b == b;
    } else {
      assert (a + b)[1..] == a[1..] + b;
      SpacesAdd(a[1..], b);
    }
  }

  lemma {:induction false} SpacesNone(s: string)
    requires ' ' !in s
    ensures Spaces(s) == 0
  {
    if s != "" {
      SpacesNone(s[1..]);
    }
  }

  lemma {:induction false} SpacesSome(s: string)
    requires ' ' in s
    ensures Spaces(s) > 0
  {
    if s[0] != ' ' {
      SpacesSome(s[1..]);
    }
  }

  lemma {:induction false} FieldCount(s: string)
    ensures |Split(s, ' ')| == Spaces(s) + 1
    decreases |s|
  {
    var i := IndexOf(s, ' ');
    SpacesNone(s[..i]);
    if i < |s| {
      FieldCount(s[i + 1..]);
      assert s == s[..i] + ([' '] + s[i + 1..]);
      SpacesAdd(s[..i], [' '] + s[i + 1..]);
      assert ([' '] + s[i + 1..])[1..] == s[i + 1..];
    } else {
      assert s[..i] == s;
    }
  }

  lemma {:induction false} JoinSpaces(fields: seq<string>, k: nat)
    requires k < |fields|
    ensures Spaces(HeaderText(fields)) >= Spaces(fields[k]) + |fields| - 1
  {
    if |fields| > 1 {
      var rest := HeaderText(fields[1..]);
      JoinSpaces(fields[1..], if k == 0 then 0 else k - 1);
      assert HeaderText(fields) == fields[0] + ([' '] + rest);
      SpacesAdd(fields[0], [' '] + rest);
      assert ([' '] + rest)[1..] == rest;
    }
  }

  lemma WrongFieldCountRefused(line: string)
    requires |Split(line, ' ')| != 5
    ensures ParsePeer(line).Err?
  {
  }

  lemma SpacedHostRefused(p: DiscoveredPeer)
    requires ValidPeer(p) && ' ' in p.endpoint.host
    ensures ParsePeer(PeerLine(p)).Err?
  {
    SpacesSome(p.endpoint.host);
    JoinSpaces(PeerFields(p), 2);
    FieldCount(PeerLine(p));
    WrongFieldCountRefused(PeerLine(p));
  }

  lemma PeerFieldsHoldNoSpace(p: DiscoveredPeer)
    requires ValidPeer(p) && ' ' !in p.endpoint.host
    ensures forall f | f in PeerFields(p) :: ' ' !in f
  {
    AtomIsWord(p.id);
    DigitsAreWord(p.endpoint.port);
    EncodedIsWord(p.chunks, p.hasAll);
  }

  /** A host with a space, an unprintable character or no character at all spoils the line. */
  lemma BadHostRefused(p: DiscoveredPeer)
    requires ValidPeer(p) && !IsWord(p.endpoint.host)
    ensures ParsePeer(PeerLine(p)).Err?
  {
    assert p.endpoint.host in PeerFields(p) by {
      assert PeerFields(p)[2] == p.endpoint.host;
    }
    if ' ' in p.endpoint.host {
      SpacedHostRefused(p);
    } else {
      PeerFieldsHoldNoSpace(p);
      SplitJoin(PeerFields(p), ' ');
      if HeaderFields(PeerLine(p)).Ok? {
        HeaderFieldsSound(PeerLine(p));
      }
    }
  }

  /** The fate of every stored peer, in full. */
  lemma RelayOutcome(p: DiscoveredPeer)
    requires ValidPeer(p)
    ensures ParsePeer(PeerLine(p)) == if Relayable(p) then Ok(p) else Err
  {
    if IsWord(p.endpoint.host) {
      PeerFieldsAreWords(p);
      HeaderFieldsOf(PeerFields(p));
      FieldsOutcome(p);
    } else {
      BadHostRefused(p);
      if SafeAtom(p.endpoint.host) {
        AtomIsWord(p.endpoint.host);
      }
    }
  }

  // ---------------------------------------------------------------- the length bound

  /** An accepted announcement is as long as its fields, and printing it again makes no field longer. */
  lemma AnnounceLength(header: string)
    requires ParseTrackerRequest(header).Ok? && ParseTrackerRequest(header).value.Announce?
    ensures var r := ParseTrackerRequest(header).value;
            ValidAnnounce(r) && StrictlyIncreasing(r.chunks)
    ensures var r := ParseTrackerRequest(header).value;
            13 + |r.token| + |r.swarm| + |r.peer| + |Digits(r.port)| + |Encode(r.chunks, r.hasAll).value| <= |header|
  {
    var fields := HeaderFields(header).value;
    HeaderFieldsSound(header);
    assert fields == [fields[0], fields[1], fields[2], fields[3], fields[4], fields[5]];
    Length6(fields[0], fields[1], fields[2], fields[3], fields[4], fields[5]);
    DigitsShortest(fields[4]);
    ReencodedNoLonger(fields[5]);
  }

  const SWARM_ID_LENGTH: nat := 64
  const MAX_RELAYED_HOST: nat := 70

  /**
   Every announcement accepted within the header limit for a real swarm id, from a host written with at most
   70 atom characters, reaches clients unchanged: neither rebuilt text exceeds the limit.
   */
  lemma AcceptedAnnounceIsRelayed(header: string, host: string)
    requires ParseTrackerRequest(header).Ok? && ParseTrackerRequest(header).value.Announce?
    requires |ParseTrackerRequest(header).value.swarm| == SWARM_ID_LENGTH
    requires SafeAtom(host) && |host| <= MAX_RELAYED_HOST
    ensures var p := Stored(ParseTrackerRequest(header).value, host);
            ValidPeer(p) && Relayable(p) && ParsePeer(PeerLine(p)) == Ok(p)
  {
    var p := Stored(ParseTrackerRequest(header).value, host);
    AnnounceLength(header);
    Length5("PEER", p.id, host, Digits(p.endpoint.port), ChunkText(p));
    Length6("ANNOUNCE", "check-token", "check-swarm", p.id, Digits(p.endpoint.port), ChunkText(p));
    RelayOutcome(p);
  }

  /** A link-local address written with its zone, as `getnameinfo` prints it, is not an atom. */
  lemma ZonedHostIsRefused(p: DiscoveredPeer)
    requires ValidPeer(p) && p.endpoint.host == "fe80::1%eth0"
    ensures ParsePeer(PeerLine(p)).Err?
  {
    assert p.endpoint.host[7] == '%' && !AtomChar('%');
    RelayOutcome(p);
  }

  // ---------------------------------------------------------------- a whole PEERS answer

  function AnswerText(peers: seq<DiscoveredPeer>): string
    requires forall p | p in peers :: ValidPeer(p)
  {
    if peers == [] then "END\n" else PeerLine(peers[0]) + "\n" + AnswerText(peers[1..])
  }

  /** `TrackerClient::peers` on the bytes received. */
  function ReadPeers(bytes: string): Result<seq<DiscoveredPeer>>
    decreases |bytes|
  {
    match LineOf(bytes, MAX_HEADER_BYTES)
    case Err => Err
    case Ok((line, rest)) =>
      if line == "END" then Ok([])
      else if StartsWith(line, "ERROR ") then Err
      else
        var p :- ParsePeer(line);
        var more :- ReadPeers(rest);
        Ok([p] + more)
  }

  /** Reading the whole answer amounts to having read `done` and going on with `bytes`. */
  ghost predicate Remains(all: Result<seq<DiscoveredPeer>>, done: seq<DiscoveredPeer>, bytes: string) {
    all == match ReadPeers(bytes) case Ok(more) => Ok(done + more) case Err => Err
  }

  lemma RemainsAtStart(bytes: string)
    ensures Remains(ReadPeers(bytes), [], bytes)
  {
    var r := ReadPeers(bytes);
    assert r.Ok? ==> [] + r.value == r.value;
  }

  lemma RemainsByOne(all: Result<seq<DiscoveredPeer>>, done: seq<DiscoveredPeer>, bytes: string, line: string,
                     rest: string, p: DiscoveredPeer)
    requires Remains(all, done, bytes) && LineOf(bytes, MAX_HEADER_BYTES) == Ok((line, rest))
    requires line != "END" && !StartsWith(line, "ERROR ") && ParsePeer(line) == Ok(p)
    ensures Remains(all, done + [p], rest)
  {
    var r := ReadPeers(rest);
    assert r.Ok? ==> done + ([p] + r.value) == done + [p] + r.value;
  }

  /** The client's loop, for every way the answer arrives. */
  method ReadAnswer(stream: Stream) returns (r: Result<seq<DiscoveredPeer>>)
    modifies stream
    ensures stream.healthy || r.Ok? ==> r == ReadPeers(old(stream.pending))
  {
    var discovered: seq<DiscoveredPeer> := [];
    ghost var all := ReadPeers(stream.pending);
    RemainsAtStart(stream.pending);
    while true
      invariant Remains(all, discovered, stream.pending)
      decreases |stream.pending|
    {
      ghost var bytes := stream.pending;
      var line :- ReadLine(stream, MAX_HEADER_BYTES);
      if line == "END" {
        assert discovered + [] == discovered;
        return Ok(discovered);
      }
      if StartsWith(line, "ERROR ") {
        return Err;
      }
      var p :- ParsePeer(line);
      RemainsByOne(all, discovered, bytes, line, stream.pending, p);
      discovered := discovered + [p];
    }
  }

  lemma PeerLineIsNoKeyword(p: DiscoveredPeer)
    requires ValidPeer(p)
    ensures PeerLine(p) != "END" && !StartsWith(PeerLine(p), "ERROR ")
  {
    var fields := PeerFields(p);
    assert fields == [fields[0]] + fields[1..];
    JoinCons(fields[0], fields[1..], ' ');
    assert PeerLine(p)[0] == 'P';
  }

  lemma PeerLinePrintable(p: DiscoveredPeer)
    requires ValidPeer(p) && AllPrintable(p.endpoint.host)
    ensures AllPrintable(PeerLine(p))
  {
    AtomIsWord(p.id);
    DigitsAreWord(p.endpoint.port);
    EncodedIsWord(p.chunks, p.hasAll);
    JoinPrintable(PeerFields(p));
  }

  lemma LineTooLong(line: string, rest: string, max: nat)
    requires AllPrintable(line) && |line| > max
    ensures LineOf(line + "\n" + rest, max).Err?
  {
    var bytes := line + "\n" + rest;
    assert bytes[..|line|] == line;
    IndexOfUnique(bytes, '\n', |line|);
    NoReturns(line);
  }

  lemma FirstPeerRead(p: DiscoveredPeer, rest: string)
    requires ValidPeer(p) && AllPrintable(p.endpoint.host)
    ensures ReadPeers(PeerLine(p) + "\n" + rest)
         == if !Relayable(p) || ReadPeers(rest).Err? then Err else Ok([p] + ReadPeers(rest).value)
  {
    PeerLinePrintable(p);
    PeerLineIsNoKeyword(p);
    RelayOutcome(p);
    if |PeerLine(p)| <= MAX_HEADER_BYTES {
      LineOfLine(PeerLine(p), rest, MAX_HEADER_BYTES);
    } else {
      LineTooLong(PeerLine(p), rest, MAX_HEADER_BYTES);
    }
  }

  lemma EndRead()
    ensures ReadPeers("END\n") == Ok([])
  {
    assert "END\n" == "END" + "\n" + "";
    LineOfLine("END", "", MAX_HEADER_BYTES);
  }

  /**
   A PEERS answer is read back peer for peer when every listed peer can be relayed; a single one that cannot
   makes the client reject the whole answer.
   */
  lemma {:induction false} AnswerOutcome(peers: seq<DiscoveredPeer>)
    requires forall p | p in peers :: ValidPeer(p) && AllPrintable(p.endpoint.host)
    ensures ReadPeers(AnswerText(peers)) == if forall p | p in peers :: Relayable(p) then Ok(peers) else Err
  {
    if peers == [] {
      EndRead();
    } else {
      var tail := peers[1..];
      AnswerOutcome(tail);
      FirstPeerRead(peers[0], AnswerText(tail));
      assert peers == [peers[0]] + tail;
    }
  }
}
