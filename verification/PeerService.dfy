/** Serving and fetching one chunk (src/peer_server.cpp:142-183, src/download.cpp:61-115). */
module PeerService {
  import opened Base
  import opened Text
  import opened Crypto
  import opened Geometry
  import opened Manifests
  import P = Protocol
  import opened ChunkLists
  import opened Streams

  /** What a peer serves: `has` is the `has_chunk` callback, constantly true for a seeder. */
  datatype Served = Served(manifest: Manifest, token: string, hash: Hash, has: nat -> bool)

  // ---------------------------------------------------------------- the reply

  function ErrorReply(code: string): string {
    "ERROR " + code + "\n"
  }

  function DataReply(bytes: string, digest: string): string {
    P.HeaderText(P.DataFields(P.DataHeader(|bytes|, digest))) + "\n" + bytes
  }

  /** The bytes read at chunk `i`: fewer than asked when the file is too short. */
  function ReadChunk(m: Manifest, file: string, i: nat): string {
    var from, to := m.Shape().Offset(i), m.Shape().Offset(i) + m.Shape().Length(i);
    if from <= to <= |file| then file[from..to] else if from <= |file| then file[from..] else ""
  }

  datatype Outcome = Refuse(code: string) | Send(bytes: string, digest: string)

  /** The checks of `serve_connection`, in order; no file means it could not be opened. */
  function Decide(s: Served, file: Option<string>, line: string): Outcome
    requires s.manifest.Valid()
  {
    match P.ParseChunkRequest(line)
    case Err => Refuse("bad_request")
    case Ok(q) =>
      if q.token != s.token then Refuse("unauthorized")
      else if q.swarm != SwarmId(s.manifest, s.hash) then Refuse("wrong_swarm")
      else if q.index >= |s.manifest.chunkHashes| || !s.has(q.index) then Refuse("unavailable")
      else if file.None? then Refuse("io_failure")
      else
        var bytes := ReadChunk(s.manifest, file.value, q.index);
        if |bytes| != s.manifest.Shape().Length(q.index) || s.hash(bytes) != s.manifest.chunkHashes[q.index]
        then Refuse("corrupt")
        else Send(bytes, s.manifest.chunkHashes[q.index])
  }

  function ReplyText(o: Outcome): string {
    match o
    case Refuse(code) => ErrorReply(code)
    case Send(bytes, digest) => DataReply(bytes, digest)
  }

  function ServeReply(s: Served, file: Option<string>, line: string): string
    requires s.manifest.Valid()
  {
    ReplyText(Decide(s, file, line))
  }

  function BadRequest(): string {
    ErrorReply("bad_request")
  }

  /** The reply the bytes of a request call for. */
  function ReplyTo(s: Served, file: Option<string>, request: string): string
    requires s.manifest.Valid()
  {
    match LineOf(request, P.MAX_HEADER_BYTES) case Ok((line, _)) => ServeReply(s, file, line) case Err => BadRequest()
  }

  function RequestLine(token: string, swarm: string, i: nat): string {
    P.HeaderText(P.GetFields(P.ChunkRequest(token, swarm, i)))
  }

  /**
   `serve_connection` over byte streams: the reply the request calls for, or an error reply when the request
   cannot be read; a DATA reply that cannot be sent is followed by an attempt at an error reply.
   */
  method ServeConnection(s: Served, file: Option<string>, request: Stream, reply: Stream)
    requires s.manifest.Valid() && request != reply
    modifies request, reply
    ensures request.healthy && reply.healthy ==>
              reply.pending == old(reply.pending) + ReplyTo(s, file, old(request.pending))
    ensures || Attempted(old(reply.pending), reply.pending, ReplyTo(s, file, old(request.pending)), BadRequest())
            || (!request.healthy && Attempted(old(reply.pending), reply.pending, BadRequest(), BadRequest()))
  {
    var line := ReadLine(request, P.MAX_HEADER_BYTES);
    var outcome := if line.Ok? then Decide(s, file, line.value) else Refuse("bad_request");
    WriteOutcome(reply, outcome);
  }

  /** An error line, or the DATA header and then the payload in a second write. */
  method WriteOutcome(reply: Stream, o: Outcome)
    modifies reply
    ensures reply.healthy ==> reply.pending == old(reply.pending) + ReplyText(o)
    ensures Attempted(old(reply.pending), reply.pending, ReplyText(o), BadRequest())
  {
    match o
    case Refuse(code) =>
      var ok := WriteAll(reply, ErrorReply(code));
      if !ok {
        CutShort(old(reply.pending), reply.pending, reply.pending, ErrorReply(code), BadRequest());
      }
    case Send(bytes, digest) =>
      var ok := WriteData(reply, bytes, digest);
      if !ok {
        ghost var mid := reply.pending;
        var _ := WriteAll(reply, BadRequest());
        CutShort(old(reply.pending), mid, reply.pending, ReplyText(o), BadRequest());
      }
  }

  method WriteData(reply: Stream, bytes: string, digest: string) returns (ok: bool)
    modifies reply
    ensures reply.healthy ==> ok
    ensures ok ==> reply.pending == old(reply.pending) + DataReply(bytes, digest)
    ensures !ok ==> old(reply.pending) <= reply.pending < old(reply.pending) + DataReply(bytes, digest)
  {
    var header := P.HeaderText(P.DataFields(P.DataHeader(|bytes|, digest))) + "\n";
    ok := WriteAll(reply, header);
    assert old(reply.pending) + header + bytes == old(reply.pending) + (header + bytes);
    if ok {
      ok := WriteAll(reply, bytes);
    }
  }

  // ---------------------------------------------------------------- the fetch

  predicate VerifiedChunk(m: Manifest, hash: Hash, i: nat, bytes: string)
    requires m.Valid() && i < |m.chunkHashes|
  {
    |bytes| == m.Shape().Length(i) && hash(bytes) == m.chunkHashes[i]
  }

  function AgreesWithManifest(m: Manifest, i: nat, line: string): (r: Result<nat>)
    requires m.Valid() && i < |m.chunkHashes|
    ensures r.Ok? ==> r.value == m.Shape().Length(i)
  {
    if StartsWith(line, "ERROR ") then Err else
      var header :- P.ParseDataHeader(line);
      if header.count != m.Shape().Length(i) || header.digest != m.chunkHashes[i] then Err
      else Ok(header.count)
  }

  /** What a downloader makes of the bytes a peer sent. */
  function DecodeReply(m: Manifest, hash: Hash, i: nat, reply: string): (r: Result<string>)
    requires m.Valid() && i < |m.chunkHashes|
    ensures r.Ok? ==> VerifiedChunk(m, hash, i, r.value)
  {
    var (line, body) :- LineOf(reply, P.MAX_HEADER_BYTES);
    var count :- AgreesWithManifest(m, i, line);
    if |body| < count || hash(body[..count]) != m.chunkHashes[i] then Err else Ok(body[..count])
  }

  /** `fetch_chunk` after the request has been sent: for every way the reply bytes arrive. */
  method FetchChunk(m: Manifest, hash: Hash, i: nat, reply: Stream) returns (r: Result<string>)
    requires m.Valid() && i < |m.chunkHashes|
    modifies reply
    ensures r.Ok? ==> VerifiedChunk(m, hash, i, r.value)
    ensures reply.healthy || r.Ok? ==> r == DecodeReply(m, hash, i, old(reply.pending))
  {
    var line :- ReadLine(reply, P.MAX_HEADER_BYTES);
    var count :- AgreesWithManifest(m, i, line);
    ghost var body := reply.pending;
    var bytes := new char[count];
    var ok := ReadExact(reply, bytes);
    if !ok {
      return Err;
    }
    assert bytes[..] == body[..count];
    if hash(bytes[..]) != m.chunkHashes[i] {
      return Err;
    }
    return Ok(bytes[..]);
  }

  // ---------------------------------------------------------------- end to end

  /** A DATA reply is decoded to its own count, digest and payload, even one full of line breaks. */
  lemma DataReplyDecodes(m: Manifest, hash: Hash, i: nat, bytes: string, after: string)
    requires m.Valid() && i < |m.chunkHashes| && VerifiedChunk(m, hash, i, bytes)
    ensures DecodeReply(m, hash, i, DataReply(bytes, m.chunkHashes[i]) + after) == Ok(bytes)
  {
    var h := P.DataHeader(|bytes|, m.chunkHashes[i]);
    var line := P.HeaderText(P.DataFields(h));
    ChunkInFile(m.Shape(), i);
    P.DataRoundTrip(h);
    HeaderIsPrintable(line);
    assert DataReply(bytes, m.chunkHashes[i]) + after == line + "\n" + (bytes + after);
    LineOfLine(line, bytes + after, P.MAX_HEADER_BYTES);
    DataIsNoError(h);
    assert (bytes + after)[..|bytes|] == bytes;
  }

  lemma HeaderIsPrintable(line: string)
    requires P.HeaderFields(line).Ok?
    ensures P.AllPrintable(line)
  {
  }

  lemma DataIsNoError(h: P.DataHeader)
    ensures !StartsWith(P.HeaderText(P.DataFields(h)), "ERROR ")
  {
    var fields := P.DataFields(h);
    JoinCons(fields[0], fields[1..], ' ');
    assert fields == [fields[0]] + fields[1..];
    assert P.HeaderText(fields)[0] == 'D';
  }

  /** The request a downloader sends is the one the peer parses. */
  lemma RequestArrives(token: string, swarm: string, i: nat, after: string)
    requires P.SafeAtom(token) && P.SafeAtom(swarm) && i <= MAX_UINT32
    ensures LineOf(RequestLine(token, swarm, i) + "\n" + after, P.MAX_HEADER_BYTES)
         == Ok((RequestLine(token, swarm, i), after))
    ensures P.ParseChunkRequest(RequestLine(token, swarm, i)) == Ok(P.ChunkRequest(token, swarm, i))
  {
    P.GetRoundTrip(P.ChunkRequest(token, swarm, i));
    HeaderIsPrintable(RequestLine(token, swarm, i));
    LineOfLine(RequestLine(token, swarm, i), after, P.MAX_HEADER_BYTES);
  }

  /** The whole chunk lies in the file and hashes to the manifest's entry. */
  predicate HoldsChunk(m: Manifest, hash: Hash, file: Option<string>, i: nat)
    requires m.Valid() && i < |m.chunkHashes|
  {
    var from, to := m.Shape().Offset(i), m.Shape().Offset(i) + m.Shape().Length(i);
    file.Some? && 0 <= from <= to <= |file.value| && hash(file.value[from..to]) == m.chunkHashes[i]
  }

  function ChunkOf(m: Manifest, hash: Hash, file: Option<string>, i: nat): string
    requires m.Valid() && i < |m.chunkHashes| && HoldsChunk(m, hash, file, i)
  {
    file.value[m.Shape().Offset(i)..m.Shape().Offset(i) + m.Shape().Length(i)]
  }

  /** A chunk is sent exactly for a GET with the peer's own token and swarm id, for a chunk it offers and holds. */
  lemma SentIff(s: Served, file: Option<string>, line: string)
    requires s.manifest.Valid()
    ensures var q := P.ParseChunkRequest(line);
            && (Decide(s, file, line).Send? <==>
                 && q.Ok? && q.value.token == s.token && q.value.swarm == SwarmId(s.manifest, s.hash)
                 && q.value.index < |s.manifest.chunkHashes| && s.has(q.value.index)
                 && HoldsChunk(s.manifest, s.hash, file, q.value.index))
            && (Decide(s, file, line).Send? ==>
                 Decide(s, file, line) == Send(ChunkOf(s.manifest, s.hash, file, q.value.index),
                                               s.manifest.chunkHashes[q.value.index]))
  {
    var q := P.ParseChunkRequest(line);
    if q.Ok? && q.value.index < |s.manifest.chunkHashes| && file.Some? {
      ShortReadFails(s.manifest, file.value, q.value.index);
    }
  }

  lemma ShortReadFails(m: Manifest, file: string, i: nat)
    requires m.Valid() && i < |m.chunkHashes|
    ensures var from, to := m.Shape().Offset(i), m.Shape().Offset(i) + m.Shape().Length(i);
            && from <= to
            && (to <= |file| ==> ReadChunk(m, file, i) == file[from..to])
            && (|file| < to ==> |ReadChunk(m, file, i)| < m.Shape().Length(i))
  {
    ChunkInFile(m.Shape(), i);
  }

  /** What is wrong with a proper GET that is not answered with the chunk, in the order of the checks. */
  function Reason(s: Served, file: Option<string>, q: P.ChunkRequest): string
    requires s.manifest.Valid()
  {
    if q.token != s.token then "unauthorized"
    else if q.swarm != SwarmId(s.manifest, s.hash) then "wrong_swarm"
    else if q.index >= |s.manifest.chunkHashes| || !s.has(q.index) then "unavailable"
    else if file.None? then "io_failure"
    else "corrupt"
  }

  /** The reply to any line: the chunk, the reason against it, or that the line is no GET. */
  lemma ReplyIs(s: Served, file: Option<string>, line: string)
    requires s.manifest.Valid()
    ensures ServeReply(s, file, line) ==
              match P.ParseChunkRequest(line)
              case Err => ErrorReply("bad_request")
              case Ok(q) =>
                if Decide(s, file, line).Send? then DataReply(Decide(s, file, line).bytes, Decide(s, file, line).digest)
                else ErrorReply(Reason(s, file, q))
  {
  }

  lemma ReasonIsWord(s: Served, file: Option<string>, q: P.ChunkRequest)
    requires s.manifest.Valid()
    ensures P.IsWord(Reason(s, file, q)) && |Reason(s, file, q)| <= P.MAX_ATOM
  {
  }

  /**
   Any downloader and any peer: the fetch yields the chunk exactly when they share the token and the manifest and
   the peer offers and holds the chunk; otherwise it fails.
   */
  lemma FetchFromPeer(s: Served, file: Option<string>, m: Manifest, token: string, i: nat)
    requires s.manifest.Valid() && m.Valid() && P.SafeAtom(token) && ProducesDigests(s.hash) && i < |m.chunkHashes|
    requires s.hash(Serialize(m)) == s.hash(Serialize(s.manifest)) ==> Serialize(m) == Serialize(s.manifest)
    ensures DecodeReply(m, s.hash, i, ServeReply(s, file, RequestLine(token, SwarmId(m, s.hash), i)))
         == if token == s.token && m == s.manifest && s.has(i) && HoldsChunk(m, s.hash, file, i)
            then Ok(ChunkOf(m, s.hash, file, i)) else Err
  {
    var line := RequestLine(token, SwarmId(m, s.hash), i);
    P.DigestIsAtom(SwarmId(m, s.hash));
    RequestArrives(token, SwarmId(m, s.hash), i, "");
    SwarmIdIdentifiesManifest(m, s.manifest, s.hash);
    SentIff(s, file, line);
    ReplyIs(s, file, line);
    if Decide(s, file, line).Send? {
      ChunkInFile(m.Shape(), i);
      var bytes := ChunkOf(m, s.hash, file, i);
      DataReplyDecodes(m, s.hash, i, bytes, "");
      assert DataReply(bytes, m.chunkHashes[i]) + "" == DataReply(bytes, m.chunkHashes[i]);
    } else {
      var q := P.ChunkRequest(token, SwarmId(m, s.hash), i);
      ReasonIsWord(s, file, q);
      ErrorIsRefused(m, s.hash, i, Reason(s, file, q));
    }
  }

  /** The whole exchange over two healthy streams, for every segmentation of all sends and receives. */
  method Exchange(s: Served, file: Option<string>, m: Manifest, token: string, i: nat) returns (r: Result<string>)
    requires s.manifest.Valid() && m.Valid() && P.SafeAtom(token) && ProducesDigests(s.hash) && i < |m.chunkHashes|
    requires s.hash(Serialize(m)) == s.hash(Serialize(s.manifest)) ==> Serialize(m) == Serialize(s.manifest)
    ensures r == if token == s.token && m == s.manifest && s.has(i) && HoldsChunk(m, s.hash, file, i)
                 then Ok(ChunkOf(m, s.hash, file, i)) else Err
  {
    var swarm := SwarmId(m, s.hash);
    var line := RequestLine(token, swarm, i);
    var request := new Stream(true);
    var reply := new Stream(true);
    var sent := WriteAll(request, line + "\n");
    P.DigestIsAtom(swarm);
    RequestArrives(token, swarm, i, "");
    assert "" + (line + "\n") == line + "\n" + "";
    ServeConnection(s, file, request, reply);
    assert "" + ServeReply(s, file, line) == ServeReply(s, file, line);
    r := FetchChunk(m, s.hash, i, reply);
    FetchFromPeer(s, file, m, token, i);
  }

  // ---------------------------------------------------------------- exactly which replies are taken

  /** The reply is a DATA line with the manifest's size and digest, then `bytes`, then anything. */
  ghost predicate IsDataReply(m: Manifest, i: nat, reply: string, bytes: string, line: string, rest: string)
    requires m.Valid() && i < |m.chunkHashes|
  {
    && LineOf(reply, P.MAX_HEADER_BYTES) == Ok((line, bytes + rest))
    && P.ParseDataHeader(line) == Ok(P.DataHeader(|bytes|, m.chunkHashes[i]))
  }

  lemma DataLineIsNoError(line: string)
    requires P.ParseDataHeader(line).Ok?
    ensures !StartsWith(line, "ERROR ")
  {
    var h := P.ParseDataHeader(line).value;
    P.DataHeaderIff(line, h);
    var numeral :| P.IsData(line, h, numeral);
    assert ["DATA", numeral, h.digest] == ["DATA"] + [numeral, h.digest];
    JoinCons("DATA", [numeral, h.digest], ' ');
    assert line[0] == 'D';
  }

  /** A reply is taken exactly when it announces the manifest's size and digest and its bytes are verified. */
  lemma DecodedIff(m: Manifest, hash: Hash, i: nat, reply: string, bytes: string)
    requires m.Valid() && i < |m.chunkHashes|
    ensures DecodeReply(m, hash, i, reply) == Ok(bytes) <==>
              VerifiedChunk(m, hash, i, bytes)
              && exists line: string, rest: string :: IsDataReply(m, i, reply, bytes, line, rest)
  {
    if DecodeReply(m, hash, i, reply) == Ok(bytes) {
      var (line, body) := LineOf(reply, P.MAX_HEADER_BYTES).value;
      assert body == bytes + body[|bytes|..];
      assert IsDataReply(m, i, reply, bytes, line, body[|bytes|..]);
    }
    if VerifiedChunk(m, hash, i, bytes) {
      if line, rest :| IsDataReply(m, i, reply, bytes, line, rest) {
        DataLineIsNoError(line);
        assert (bytes + rest)[..|bytes|] == bytes;
      }
    }
  }

  lemma ErrorIsRefused(m: Manifest, hash: Hash, i: nat, code: string)
    requires m.Valid() && i < |m.chunkHashes| && P.IsWord(code) && |code| <= P.MAX_ATOM
    ensures DecodeReply(m, hash, i, ErrorReply(code)).Err?
  {
    var line := "ERROR " + code;
    LineOfLine(line, "", P.MAX_HEADER_BYTES);
    assert ErrorReply(code) == line + "\n" + "";
    assert line[..6] == "ERROR ";
  }

  // ---------------------------------------------------------------- choosing a peer

  /** `peer_has_chunk`: has-all or membership, for every peer whose list is strictly increasing. */
  function PeerHasChunk(peer: P.DiscoveredPeer, i: nat): (has: bool)
    requires StrictlyIncreasing(peer.chunks)
    ensures has <==> peer.hasAll || i in peer.chunks
  {
    peer.hasAll || BinarySearch(peer.chunks, i)
  }

  /** One candidate of one round: a peer the tracker listed and the bytes it would send for the chunk. */
  datatype Offer = Offer(peer: P.DiscoveredPeer, reply: string)

  predicate Eligible(self: string, i: nat, o: Offer) {
    o.peer.id != self && (o.peer.hasAll || i in o.peer.chunks)
  }

  predicate Useful(m: Manifest, hash: Hash, self: string, i: nat, o: Offer)
    requires m.Valid() && i < |m.chunkHashes|
  {
    Eligible(self, i, o) && DecodeReply(m, hash, i, o.reply).Ok?
  }

  /** Offer `k` is the first useful one, and `r` is what it decodes to. */
  ghost predicate FirstUsefulAt(m: Manifest, hash: Hash, self: string, i: nat, offers: seq<Offer>, k: nat, r: Result<string>)
    requires m.Valid() && i < |m.chunkHashes|
  {
    && k < |offers| && Useful(m, hash, self, i, offers[k]) && r == DecodeReply(m, hash, i, offers[k].reply)
    && forall j | 0 <= j < k :: !Useful(m, hash, self, i, offers[j])
  }

  ghost predicate FirstUseful(m: Manifest, hash: Hash, self: string, i: nat, offers: seq<Offer>, r: Result<string>)
    requires m.Valid() && i < |m.chunkHashes|
  {
    exists k: nat :: FirstUsefulAt(m, hash, self, i, offers, k, r)
  }

  /** A round is what the tracker query gave: an error, or the listed peers with what each would send. */
  type Round = Result<seq<Offer>>

  ghost predicate UsefulRound(m: Manifest, hash: Hash, self: string, i: nat, round: Round)
    requires m.Valid() && i < |m.chunkHashes|
  {
    round.Ok? && exists k :: 0 <= k < |round.value| && Useful(m, hash, self, i, round.value[k])
  }

  /**
   `fetch_with_retry`: succeeds exactly when some round offers a usable reply from another peer that
   advertises the chunk, and then returns verified bytes; `retries` counts the rounds begun after the first.
   */
  method FetchWithRetry(m: Manifest, hash: Hash, self: string, i: nat, rounds: seq<Round>)
    returns (r: Result<string>, retries: nat)
    requires m.Valid() && i < |m.chunkHashes|
    requires forall k | 0 <= k < |rounds| && rounds[k].Ok? ::
               forall j | 0 <= j < |rounds[k].value| :: StrictlyIncreasing(rounds[k].value[j].peer.chunks)
    ensures r.Ok? ==> VerifiedChunk(m, hash, i, r.value)
    ensures r.Ok? <==> exists k :: 0 <= k < |rounds| && UsefulRound(m, hash, self, i, rounds[k])
    ensures r.Ok? ==> retries < |rounds| && UsefulRound(m, hash, self, i, rounds[retries])
                      && FirstUseful(m, hash, self, i, rounds[retries].value, r)
    ensures r.Ok? ==> forall k | 0 <= k < retries :: !UsefulRound(m, hash, self, i, rounds[k])
    ensures r.Err? && rounds != [] ==> retries == |rounds| - 1
  {
    retries := 0;
    for round := 0 to |rounds|
      invariant retries == if round == 0 || round < |rounds| then round else round - 1
      invariant forall k | 0 <= k < round :: !UsefulRound(m, hash, self, i, rounds[k])
    {
      if rounds[round].Ok? {
        r := TryPeers(m, hash, self, i, rounds[round].value);
        if r.Ok? {
          return;
        }
      }
      if round + 1 < |rounds| {
        retries := retries + 1;
      }
    }
    r := Err;
  }

  method TryPeer(m: Manifest, hash: Hash, self: string, i: nat, o: Offer) returns (r: Result<string>)
    requires m.Valid() && i < |m.chunkHashes| && StrictlyIncreasing(o.peer.chunks)
    ensures r.Ok? ==> VerifiedChunk(m, hash, i, r.value)
    ensures r.Ok? <==> Useful(m, hash, self, i, o)
    ensures r.Ok? ==> r == DecodeReply(m, hash, i, o.reply)
  {
    if o.peer.id == self || !PeerHasChunk(o.peer, i) {
      return Err;
    }
    return DecodeReply(m, hash, i, o.reply);
  }

  /** One round: every eligible peer in order until one reply verifies. */
  method TryPeers(m: Manifest, hash: Hash, self: string, i: nat, offers: seq<Offer>) returns (r: Result<string>)
    requires m.Valid() && i < |m.chunkHashes|
    requires forall k | 0 <= k < |offers| :: StrictlyIncreasing(offers[k].peer.chunks)
    ensures r.Ok? ==> VerifiedChunk(m, hash, i, r.value)
    ensures r.Ok? <==> exists k :: 0 <= k < |offers| && Useful(m, hash, self, i, offers[k])
    ensures r.Ok? ==> FirstUseful(m, hash, self, i, offers, r)
  {
    for k := 0 to |offers|
      invariant forall j | 0 <= j < k :: !Useful(m, hash, self, i, offers[j])
    {
      r := TryPeer(m, hash, self, i, offers[k]);
      if r.Ok? {
        assert FirstUsefulAt(m, hash, self, i, offers, k, r);
        return;
      }
    }
    return Err;
  }
}
