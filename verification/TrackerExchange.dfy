/** Whole conversations with the tracker, client and server together (src/tracker.cpp:80-109, 236-303). */
module TrackerExchange {
  import opened Base
  import opened Text
  import opened ChunkLists
  import opened Protocol
  import opened Streams
  import opened TrackerRelay
  import opened TrackerTable
  import opened TrackerServer
  import opened Announcements

  // ---------------------------------------------------------------- what the table holds can be relayed

  /** Everyone who announced this swarm did so from a host written with at most 70 atom characters. */
  ghost predicate ShortHosts(log: seq<Request>, swarm: string) {
    forall k | 0 <= k < |log| && log[k].Announced? && log[k].swarm == swarm ::
      SafeAtom(log[k].peer.endpoint.host) && |log[k].peer.endpoint.host| <= MAX_RELAYED_HOST
  }

  lemma GenuineIsRelayable(q: Request, token: string)
    requires q.Announced? && Genuine(q, token) && |q.swarm| == SWARM_ID_LENGTH
    requires SafeAtom(q.peer.endpoint.host) && |q.peer.endpoint.host| <= MAX_RELAYED_HOST
    ensures ValidPeer(q.peer) && Relayable(q.peer)
  {
    var header :| AnnouncedBy(header, token, q);
    AcceptedAnnounceIsRelayed(header, q.peer.endpoint.host);
  }

  /** Every record a query of a real swarm can find survives the trip to the client. */
  lemma MembersAreRelayable(t: Table, l: Limits, log: seq<Request>, token: string, swarm: string, id: string)
    requires Follows(t, l, log, token) && ShortHosts(log, swarm) && |swarm| == SWARM_ID_LENGTH
    requires id in Members(t, swarm)
    ensures ValidPeer(Members(t, swarm)[id].peer) && Relayable(Members(t, swarm)[id].peer)
    ensures SafeAtom(Members(t, swarm)[id].peer.endpoint.host)
  {
    TableAgreesWithLog(l, log, swarm, id);
    var k: nat :| k < |log| && Standing(l, log, k, swarm, id);
    StoredAtMeaning(l, log, k, swarm, id);
    GenuineIsRelayable(log[k], token);
  }

  lemma AnswerIsRead(t: Table, l: Limits, log: seq<Request>, token: string, swarm: string, answer: seq<DiscoveredPeer>)
    requires Follows(t, l, log, token) && ShortHosts(log, swarm) && |swarm| == SWARM_ID_LENGTH
    requires IsAnswer(answer, Members(t, swarm), l)
    ensures forall p | p in answer :: ValidPeer(p)
    ensures ReadPeers(AnswerText(answer)) == Ok(answer)
  {
    forall p | p in answer
      ensures ValidPeer(p) && Relayable(p) && AllPrintable(p.endpoint.host)
    {
      MembersAreRelayable(t, l, log, token, swarm, p.id);
      AtomIsWord(p.endpoint.host);
    }
    AnswerOutcome(answer);
  }

  // ---------------------------------------------------------------- PEERS

  /** The list agrees with the log, which ends with the query it answers. */
  ghost predicate AgreesWithLog(l: Limits, log: seq<Request>, peers: seq<DiscoveredPeer>)
    requires log != []
  {
    && (forall i | 0 <= i < |peers| :: LiveInLog(l, log, peers[i]))
    && (forall i, j | 0 <= i < j < |peers| :: peers[i].id != peers[j].id)
    && (|QueriedMembers(l, log)| <= l.response ==> forall p | LiveInLog(l, log, p) :: p in peers)
    && (|QueriedMembers(l, log)| > l.response ==> |peers| == l.response)
  }

  function QueryText(token: string, swarm: string): string {
    HeaderText(["PEERS", token, swarm])
  }

  lemma QueryStartsWithPeers(token: string, swarm: string)
    ensures Split(QueryText(token, swarm), ' ')[0] == "PEERS"
  {
    var header := QueryText(token, swarm);
    JoinCons("PEERS", [token, swarm], ' ');
    assert ["PEERS", token, swarm] == ["PEERS"] + [token, swarm];
    assert header[..5] == "PEERS" && header[5] == ' ';
    SplitAt(header, ' ', 5);
  }

  /** The client's own check of its query lets exactly proper names through. */
  lemma QueryOutcome(token: string, swarm: string)
    ensures ParseTrackerRequest(QueryText(token, swarm))
         == if SafeAtom(token) && SafeAtom(swarm) then Ok(Peers(token, swarm)) else Err
  {
    var fields := ["PEERS", token, swarm];
    QueryStartsWithPeers(token, swarm);
    if k :| 1 <= k <= 2 && ' ' in fields[k] {
      SpacesSome(fields[k]);
      JoinSpaces(fields, k);
      FieldCount(QueryText(token, swarm));
    } else {
      forall f | f in fields
        ensures ' ' !in f
      {
        assert f == fields[0] || f == fields[1] || f == fields[2];
      }
      SplitJoin(fields, ' ');
      if SafeAtom(token) && SafeAtom(swarm) {
        QueryArrives(token, swarm, "", 0);
      }
    }
  }

  lemma QueryArrives(token: string, swarm: string, host: string, now: int)
    requires SafeAtom(token) && SafeAtom(swarm)
    ensures HeaderLine(QueryText(token, swarm) + "\n") == Ok(QueryText(token, swarm))
    ensures RequestOf(Ok(QueryText(token, swarm)), token, host, now) == Ok(Queried(swarm, now))
  {
    var fields := ["PEERS", token, swarm];
    AtomIsWord(token);
    AtomIsWord(swarm);
    Length3("PEERS", token, swarm);
    HeaderFieldsOf(fields);
    SingleLine(QueryText(token, swarm));
  }

  lemma SingleLine(header: string)
    requires HeaderFields(header).Ok?
    ensures HeaderLine(header + "\n") == Ok(header)
  {
    EndedLineRead(header);
  }

  /** A header that stands for request `q`, sent to the tracker over healthy streams; its reply is on the way back. */
  method Deliver(t: Tracker, header: string, host: string, now: int, ghost q: Request) returns (reply: Stream)
    requires t.Valid() && t.Recorded()
    requires HeaderLine(header + "\n") == Ok(header) && RequestOf(Ok(header), t.token, host, now) == Ok(q)
    modifies t
    ensures t.Valid() && t.Recorded() && t.log == old(t.log) + [q]
    ensures fresh(reply) && reply.healthy && LegalReply(q, t.limits, old(t.swarms), t.swarms, reply.pending)
  {
    var request := new Stream(true);
    reply := new Stream(true);
    var _ := WriteAll(request, header + "\n");
    assert request.pending == header + "\n";
    ghost var text := t.HandleConnection(request, reply, host, now);
    assert reply.pending == text;
  }

  lemma AnswerIsAgreed(t: Table, l: Limits, log: seq<Request>, token: string, swarm: string, text: string)
    requires Follows(t, l, log, token) && l.Valid() && Answers(text, Members(t, swarm), l)
    requires log != [] && log[|log| - 1].Queried? && log[|log| - 1].swarm == swarm
    requires ShortHosts(log, swarm) && |swarm| == SWARM_ID_LENGTH
    ensures ReadPeers(text).Ok? && IsAnswer(ReadPeers(text).value, QueriedMembers(l, log), l)
    ensures ClockMovesForward(log) ==> AgreesWithLog(l, log, ReadPeers(text).value)
  {
    var answer :| IsAnswer(answer, Members(t, swarm), l)
                  && (forall p | p in answer :: ValidPeer(p)) && text == AnswerText(answer);
    AnswerIsRead(t, l, log, token, swarm, answer);
    if ClockMovesForward(log) {
      AnswerAgreesWithLog(l, log, answer);
    }
  }

  /** A header that parses but carries another token, sent over healthy streams: nothing changes. */
  method DeliverRefused(t: Tracker, header: string, host: string, now: int) returns (reply: Stream)
    requires t.Valid() && t.Recorded() && HeaderLine(header + "\n") == Ok(header)
    requires ParseTrackerRequest(header).Ok? && ParseTrackerRequest(header).value.token != t.token
    modifies t
    ensures t.Valid() && t.Recorded() && t.log == old(t.log)
    ensures fresh(reply) && reply.healthy && reply.pending == UNAUTHORIZED
  {
    var request := new Stream(true);
    reply := new Stream(true);
    var _ := WriteAll(request, header + "\n");
    assert request.pending == header + "\n";
    TokenDecides(header, t.token, host, now);
    ghost var text := t.HandleConnection(request, reply, host, now);
    assert reply.pending == text;
  }

  lemma ErrorStopsReading(bytes: string, line: string, rest: string)
    requires LineOf(bytes, MAX_HEADER_BYTES) == Ok((line, rest)) && StartsWith(line, "ERROR ")
    ensures ReadPeers(bytes).Err?
  {
  }

  lemma ErrorLinePrintable(code: string)
    requires AllPrintable(code)
    ensures AllPrintable("ERROR " + code) && StartsWith("ERROR " + code, "ERROR ")
  {
    var start := "ERROR ";
    assert (start + code)[..|start|] == start;
    assert AllPrintable(start);
  }

  lemma ErrorLineRead(code: string)
    requires AllPrintable(code) && |code| <= MAX_ATOM
    ensures HeaderLine("ERROR " + code + "\n") == Ok("ERROR " + code)
    ensures ReadPeers("ERROR " + code + "\n").Err?
  {
    ErrorLinePrintable(code);
    EndedLineRead("ERROR " + code);
    ErrorStopsReading("ERROR " + code + "\n", "ERROR " + code, "");
  }

  lemma EndedLineRead(line: string)
    requires AllPrintable(line) && |line| <= MAX_HEADER_BYTES
    ensures LineOf(line + "\n", MAX_HEADER_BYTES) == Ok((line, "")) && HeaderLine(line + "\n") == Ok(line)
  {
    LineOfLine(line, "", MAX_HEADER_BYTES);
    assert line + "\n" + "" == line + "\n";
  }

  /** A client that reads the refusal sees an error. */
  lemma RefusalIsRead()
    ensures HeaderLine(UNAUTHORIZED).Ok? && |HeaderLine(UNAUTHORIZED).value| > 2
    ensures ReadPeers(UNAUTHORIZED).Err?
  {
    assert UNAUTHORIZED == "ERROR " + "unauthorized" + "\n";
    ErrorLineRead("unauthorized");
  }

  /**
   `peers`, over two healthy streams, for every segmentation: a query with improper names is not sent; one with
   another token than the tracker's is refused; any other is handled, and for a real swarm with short atom hosts
   the client gets a legal answer, which with clock readings in order agrees with the log of everything handled.
   */
  method AskForPeers(t: Tracker, token: string, swarm: string, host: string, now: int)
    returns (r: Result<seq<DiscoveredPeer>>)
    requires t.Valid() && t.Recorded()
    modifies t
    ensures t.Valid() && t.Recorded()
    ensures !(SafeAtom(token) && SafeAtom(swarm) && token == t.token) ==> r.Err? && t.log == old(t.log)
    ensures SafeAtom(token) && SafeAtom(swarm) && token == t.token ==>
              && t.log == old(t.log) + [Queried(swarm, now)]
              && (|swarm| == SWARM_ID_LENGTH && ShortHosts(t.log, swarm) ==>
                   && r.Ok? && IsAnswer(r.value, QueriedMembers(t.limits, t.log), t.limits)
                   && (ClockMovesForward(t.log) ==> AgreesWithLog(t.limits, t.log, r.value)))
  {
    QueryOutcome(token, swarm);
    if ParseTrackerRequest(QueryText(token, swarm)).Err? {
      return Err;
    }
    QueryArrives(token, swarm, host, now);
    if token != t.token {
      var refusal := DeliverRefused(t, QueryText(token, swarm), host, now);
      RefusalIsRead();
      r := ReadAnswer(refusal);
      return;
    }
    r := AskWithToken(t, swarm, host, now);
  }

  method AskWithToken(t: Tracker, swarm: string, host: string, now: int) returns (r: Result<seq<DiscoveredPeer>>)
    requires t.Valid() && t.Recorded() && SafeAtom(t.token) && SafeAtom(swarm)
    modifies t
    ensures t.Valid() && t.Recorded() && t.log == old(t.log) + [Queried(swarm, now)]
    ensures |swarm| == SWARM_ID_LENGTH && ShortHosts(t.log, swarm) ==>
              && r.Ok? && IsAnswer(r.value, QueriedMembers(t.limits, t.log), t.limits)
              && (ClockMovesForward(t.log) ==> AgreesWithLog(t.limits, t.log, r.value))
  {
    QueryArrives(t.token, swarm, host, now);
    var reply := Deliver(t, QueryText(t.token, swarm), host, now, Queried(swarm, now));
    ghost var table, log, text := t.swarms, t.log, reply.pending;
    assert Answers(text, Members(table, swarm), t.limits);
    r := ReadAnswer(reply);
    if |swarm| == SWARM_ID_LENGTH && ShortHosts(log, swarm) {
      AnswerIsAgreed(table, t.limits, log, t.token, swarm, text);
    }
  }

  // ---------------------------------------------------------------- ANNOUNCE

  function AnnouncedAs(a: Advertisement, host: string, now: int): Request {
    Announced(a.swarm, Stored(Intended(a), host), now)
  }

  lemma AnnouncementArrives(a: Advertisement, host: string, now: int)
    requires Sendable(a) && Bounded(a.chunks) && a.port <= MAX_UINT16
    ensures HeaderLine(HeaderText(Fields(a)) + "\n") == Ok(HeaderText(Fields(a)))
    ensures RequestOf(Ok(HeaderText(Fields(a))), a.token, host, now) == Ok(AnnouncedAs(a, host, now))
  {
    AnnouncementOutcome(a);
    SingleLine(HeaderText(Fields(a)));
  }

  lemma AnnounceReplyRead(accepted: bool)
    ensures HeaderLine(AnnounceReply(accepted)) == Ok("OK") <==> accepted
  {
    var line := if accepted then "OK" else "ERROR capacity";
    assert AnnounceReply(accepted) == line + "\n" + "";
    LineOfLine(line, "", MAX_HEADER_BYTES);
  }

  /** `expect_ok` on a reply to an announcement. */
  method ExpectOk(reply: Stream, ghost q: Request, ghost l: Limits, ghost before: Table, ghost after: Table)
    returns (ok: bool)
    requires reply.healthy && q.Announced? && LegalReply(q, l, before, after, reply.pending)
    modifies reply
    ensures ok <==> Accepts(before, l, q)
  {
    AnnounceReplyRead(Accepts(before, l, q));
    var line := ReadLine(reply, MAX_HEADER_BYTES);
    ok := line == Ok("OK");
  }

  /** The part of `announce` that talks to the tracker, for a header that stands for request `q`. */
  method Converse(t: Tracker, header: string, host: string, now: int, ghost q: Request) returns (ok: bool)
    requires t.Valid() && t.Recorded() && q.Announced?
    requires HeaderLine(header + "\n") == Ok(header) && RequestOf(Ok(header), t.token, host, now) == Ok(q)
    modifies t
    ensures t.Valid() && t.Recorded() && t.log == old(t.log) + [q]
    ensures ok <==> Accepts(old(t.swarms), t.limits, q)
  {
    ghost var before := t.swarms;
    var reply := Deliver(t, header, host, now, q);
    ok := ExpectOk(reply, q, t.limits, before, t.swarms);
  }

  /**
   `announce`: an announcement that cannot be sent, or carries another token than the tracker's, changes nothing;
   any other is handled as intended, and succeeds exactly when the tracker had room for it.
   */
  method AnnounceTo(t: Tracker, a: Advertisement, host: string, now: int) returns (ok: bool)
    requires t.Valid() && t.Recorded() && Bounded(a.chunks) && a.port <= MAX_UINT16
    modifies t
    ensures t.Valid() && t.Recorded()
    ensures t.log == old(t.log) + (if Sendable(a) && a.token == t.token then [AnnouncedAs(a, host, now)] else [])
    ensures ok <==> Sendable(a) && a.token == t.token && Accepts(old(t.swarms), t.limits, AnnouncedAs(a, host, now))
  {
    if !Sendable(a) {
      return false;
    }
    AnnouncementArrives(a, host, now);
    if a.token != t.token {
      ok := RefusedAnnounce(t, a, host, now);
    } else {
      ok := Converse(t, HeaderText(Fields(a)), host, now, AnnouncedAs(a, host, now));
    }
  }

  method RefusedAnnounce(t: Tracker, a: Advertisement, host: string, now: int) returns (ok: bool)
    requires t.Valid() && t.Recorded() && Bounded(a.chunks) && a.port <= MAX_UINT16 && Sendable(a) && a.token != t.token
    modifies t
    ensures t.Valid() && t.Recorded() && t.log == old(t.log) && !ok
  {
    AnnouncementArrives(a, host, now);
    AnnouncementOutcome(a);
    var refusal := DeliverRefused(t, HeaderText(Fields(a)), host, now);
    RefusalIsRead();
    var line := ReadLine(refusal, MAX_HEADER_BYTES);
    ok := line == Ok("OK");
  }
}
