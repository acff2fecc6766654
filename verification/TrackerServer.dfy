/** The tracker's request handler over its mutable table (src/tracker.cpp:236-321). */
module TrackerServer {
  import opened Base
  import opened Protocol
  import opened Streams
  import opened TrackerRelay
  import opened TrackerTable

  /** The request a header line stands for, when it parses and carries the right token. */
  function RequestOf(line: Result<string>, token: string, host: string, now: int): Result<Request> {
    var header :- line;
    var r :- ParseTrackerRequest(header);
    if r.token != token then Err
    else match r
      case Announce(_, swarm, _, _, _, _) => Ok(Announced(swarm, Stored(r, host), now))
      case Peers(_, swarm) => Ok(Queried(swarm, now))
  }

  ghost predicate AnnouncedBy(header: string, token: string, q: Request)
    requires q.Announced?
  {
    var r := ParseTrackerRequest(header);
    r.Ok? && r.value.Announce? && r.value.token == token && r.value.swarm == q.swarm && q.peer == Stored(r.value, q.peer.endpoint.host)
  }

  /** An announcement in the log came in a header that was accepted and carried the tracker's token. */
  ghost predicate Genuine(q: Request, token: string) {
    q.Announced? ==> exists header: string :: AnnouncedBy(header, token, q)
  }

  /** The table is what the log makes of an empty one, and the log is genuine. */
  ghost predicate Follows(t: Table, l: Limits, log: seq<Request>, token: string) {
    t == TableAfter(l, log) && forall k | 0 <= k < |log| :: Genuine(log[k], token)
  }

  lemma RequestOfValid(line: Result<string>, token: string, host: string, now: int)
    requires RequestOf(line, token, host, now).Ok?
    ensures ValidRequest(RequestOf(line, token, host, now).value) && Genuine(RequestOf(line, token, host, now).value, token)
  {
    var r := ParseTrackerRequest(line.value).value;
    if r.Announce? {
      ParsedAnnounceValid(line.value);
      assert AnnouncedBy(line.value, token, RequestOf(line, token, host, now).value);
    }
  }

  /** Only a request that parses and carries the tracker's token is handled; another token is named as the reason. */
  lemma TokenDecides(line: string, token: string, host: string, now: int)
    ensures RequestOf(Ok(line), token, host, now).Ok? <==>
              ParseTrackerRequest(line).Ok? && ParseTrackerRequest(line).value.token == token
    ensures RefusalOf(Ok(line)) == if ParseTrackerRequest(line).Ok? then UNAUTHORIZED else BAD_REQUEST
  {
  }

  function RefusalOf(line: Result<string>): string {
    if line.Ok? && ParseTrackerRequest(line.value).Ok? then UNAUTHORIZED else BAD_REQUEST
  }

  function AnnounceReply(accepted: bool): string {
    if accepted then "OK\n" else "ERROR capacity\n"
  }

  const UNAUTHORIZED := "ERROR unauthorized\n"
  const BAD_REQUEST := "ERROR bad_request\n"

  class Tracker {
    var swarms: Table
    const limits: Limits
    const token: string
    /** The requests handled so far, in the order in which they took the lock. */
    ghost var log: seq<Request>

    predicate Valid()
      reads this
    {
      limits.Valid() && WithinBounds(swarms, limits)
    }

    /** Between requests the table is what the log makes of an empty one. */
    ghost predicate Recorded()
      reads this
    {
      Follows(swarms, limits, log, token)
    }

    constructor (token: string, limits: Limits)
      requires token != "" && limits.Valid()
      ensures Valid() && Recorded() && log == [] && this.limits == limits && this.token == token
    {
      this.token, this.limits := token, limits;
      swarms, log := map[], [];
    }

    /** `prune_expired_locked`: walks the swarms, erasing expired records and swarms left empty. */
    method Prune(now: int)
      requires Valid()
      modifies this`swarms
      ensures Valid() && swarms == Pruned(old(swarms), now, limits.ttl)
    {
      var todo := swarms.Keys;
      ghost var before := swarms;
      while todo != {}
        invariant PartlyPruned(before, swarms, todo, now, limits.ttl)
        decreases todo
      {
        var s :| s in todo;
        PruneStep(before, swarms, todo, s, now, limits.ttl);
        var kept := PrunePeers(swarms[s], now, limits.ttl);
        if kept == map[] {
          swarms := swarms - {s};
        } else {
          swarms := swarms[s := kept];
        }
        todo := todo - {s};
      }
      PruneDone(before, swarms, now, limits.ttl);
      PrunedWithinBounds(before, limits, now);
    }

    /** The locked part of an announcement: prune, then store if there is room. */
    method Store(swarm: string, peer: DiscoveredPeer, now: int) returns (accepted: bool)
      requires Valid() && ValidPeer(peer)
      modifies this`swarms
      ensures Valid()
      ensures accepted <==> Accepts(old(swarms), limits, Announced(swarm, peer, now))
      ensures swarms == After(old(swarms), limits, Announced(swarm, peer, now))
    {
      Prune(now);
      var members := Members(swarms, swarm);
      accepted := false;
      if swarm in swarms || |swarms| < limits.swarms {
        if peer.id in members || |members| < limits.peers {
          Insert(swarm, Record(peer, now));
          accepted := true;
        }
      }
    }

    method Insert(swarm: string, r: Record)
      requires Valid() && ValidPeer(r.peer) && Admits(swarms, limits, swarm, r.peer.id)
      modifies this`swarms
      ensures Valid() && swarms == Put(old(swarms), swarm, r)
    {
      PutWithinBounds(swarms, limits, swarm, r);
      swarms := swarms[swarm := Members(swarms, swarm)[r.peer.id := r]];
    }

    /** The locked part of a query: prune, then copy out members in the table's own order. */
    method Collect(swarm: string, now: int) returns (answer: seq<DiscoveredPeer>)
      requires Valid()
      modifies this`swarms
      ensures Valid() && swarms == After(old(swarms), limits, Queried(swarm, now))
      ensures IsAnswer(answer, Members(swarms, swarm), limits)
      ensures forall p | p in answer :: ValidPeer(p)
    {
      Prune(now);
      answer := [];
      if swarm !in swarms {
        return;
      }
      assert GoodSwarm(swarms[swarm], limits);
      answer := FirstMembers(swarms[swarm], limits);
    }

    method HandleAnnounce(reply: Stream, swarm: string, peer: DiscoveredPeer, now: int)
      returns (ok: bool, ghost text: string)
      requires Valid() && ValidPeer(peer)
      modifies this`swarms, reply
      ensures Valid() && swarms == After(old(swarms), limits, Announced(swarm, peer, now))
      ensures text == AnnounceReply(Accepts(old(swarms), limits, Announced(swarm, peer, now)))
      ensures Written(old(reply.pending), reply.pending, text, ok) && (reply.healthy ==> ok)
    {
      var accepted := Store(swarm, peer, now);
      text := AnnounceReply(accepted);
      ok := WriteText(reply, AnnounceReply(accepted));
    }

    method HandleQuery(reply: Stream, swarm: string, now: int) returns (ok: bool, ghost text: string)
      requires Valid()
      modifies this`swarms, reply
      ensures Valid() && swarms == After(old(swarms), limits, Queried(swarm, now))
      ensures Answers(text, Members(swarms, swarm), limits)
      ensures Written(old(reply.pending), reply.pending, text, ok) && (reply.healthy ==> ok)
    {
      var answer := Collect(swarm, now);
      text := AnswerText(answer);
      ok := WriteAnswer(reply, answer);
    }

    method Answer(reply: Stream, q: Request) returns (ok: bool, ghost text: string)
      requires Valid() && ValidRequest(q)
      modifies this`swarms, reply
      ensures Valid() && swarms == After(old(swarms), limits, q)
      ensures LegalReply(q, limits, old(swarms), swarms, text)
      ensures Written(old(reply.pending), reply.pending, text, ok) && (reply.healthy ==> ok)
    {
      match q
      case Announced(swarm, peer, at) => ok, text := HandleAnnounce(reply, swarm, peer, at);
      case Queried(swarm, at) => ok, text := HandleQuery(reply, swarm, at);
    }

    /** A request that parsed and carried the right token. */
    method Dispatch(reply: Stream, q: Request) returns (ok: bool, ghost text: string)
      requires Valid() && Recorded() && ValidRequest(q) && Genuine(q, token)
      modifies this, reply
      ensures Valid() && Recorded() && log == old(log) + [q]
      ensures LegalReply(q, limits, old(swarms), swarms, text)
      ensures Written(old(reply.pending), reply.pending, text, ok) && (reply.healthy ==> ok)
    {
      FollowsOn(swarms, limits, log, token, q);
      ok, text := Answer(reply, q);
      log := log + [q];
    }

    /**
     `handle_connection`: one request line in, one reply out, the table updated in between.  A reply that cannot
     be sent is followed by an attempt to say so; the table keeps what the request did to it.
     */
    method HandleConnection(request: Stream, reply: Stream, host: string, now: int) returns (ghost text: string)
      requires Valid() && Recorded() && request != reply
      modifies this, request, reply
      ensures Valid() && Recorded()
      ensures var line := HeaderLine(old(request.pending));
              var q := RequestOf(line, token, host, now);
              || (q.Ok? && log == old(log) + [q.value] && LegalReply(q.value, limits, old(swarms), swarms, text))
              || (q.Err? && log == old(log) && text == RefusalOf(line))
              || (!request.healthy && log == old(log) && text == BAD_REQUEST)
      ensures reply.healthy ==> reply.pending == old(reply.pending) + text
      ensures Attempted(old(reply.pending), reply.pending, text, BAD_REQUEST)
    {
      var line := ReadLine(request, MAX_HEADER_BYTES);
      assert request.healthy || line.Ok? ==> line == HeaderLine(old(request.pending));
      var q := RequestOf(line, token, host, now);
      var ok;
      if q.Err? {
        text := RefusalOf(line);
        ok := WriteAll(reply, RefusalOf(line));
      } else {
        RequestOfValid(line, token, host, now);
        ok, text := Dispatch(reply, q.value);
      }
      ghost var mid := reply.pending;
      if !ok {
        var _ := WriteAll(reply, BAD_REQUEST);
      }
      CutShort(old(reply.pending), mid, reply.pending, text, BAD_REQUEST);
    }
  }

  lemma FollowsOn(t: Table, l: Limits, log: seq<Request>, token: string, q: Request)
    requires Follows(t, l, log, token) && Genuine(q, token)
    ensures Follows(After(t, l, q), l, log + [q], token)
  {
    assert (log + [q])[..|log|] == log;
  }

  /** All of `text` has been sent, or only a front part of it. */
  predicate Written(before: string, after: string, text: string, ok: bool) {
    if ok then after == before + text else before <= after < before + text
  }

  method WriteText(reply: Stream, text: string) returns (ok: bool)
    modifies reply
    ensures Written(old(reply.pending), reply.pending, text, ok) && (reply.healthy ==> ok)
  {
    ok := WriteAll(reply, text);
  }

  /** `text` is a legal answer listing peers out of `members`. */
  ghost predicate Answers(text: string, members: Swarm, l: Limits) {
    exists answer: seq<DiscoveredPeer> ::
      IsAnswer(answer, members, l) && (forall p | p in answer :: ValidPeer(p)) && text == AnswerText(answer)
  }

  /** What may be sent in answer to a request that finds the table `before` and leaves it `after`. */
  ghost predicate LegalReply(q: Request, l: Limits, before: Table, after: Table, text: string) {
    match q
    case Announced(_, _, _) => text == AnnounceReply(Accepts(before, l, q))
    case Queried(swarm, _) => Answers(text, Members(after, swarm), l)
  }

  ghost predicate PartlyPruned(before: Table, current: Table, todo: set<string>, now: int, ttl: nat) {
    && todo <= before.Keys
    && (forall s :: s in current <==> s in before && (s in todo || PrunedSwarm(before[s], now, ttl) != map[]))
    && (forall s | s in current :: current[s] == if s in todo then before[s] else PrunedSwarm(before[s], now, ttl))
  }

  lemma PruneStep(before: Table, current: Table, todo: set<string>, s: string, now: int, ttl: nat)
    requires PartlyPruned(before, current, todo, now, ttl) && s in todo
    ensures s in current && current[s] == before[s]
    ensures var kept := PrunedSwarm(before[s], now, ttl);
            PartlyPruned(before, if kept == map[] then current - {s} else current[s := kept], todo - {s}, now, ttl)
  {
  }

  lemma PruneDone(before: Table, current: Table, now: int, ttl: nat)
    requires PartlyPruned(before, current, {}, now, ttl)
    ensures current == Pruned(before, now, ttl)
  {
  }

  function HeaderLine(bytes: string): Result<string> {
    match LineOf(bytes, MAX_HEADER_BYTES) case Ok((line, _)) => Ok(line) case Err => Err
  }

  /** The inner loop of pruning. */
  method PrunePeers(peers: Swarm, now: int, ttl: nat) returns (kept: Swarm)
    ensures kept == PrunedSwarm(peers, now, ttl)
  {
    kept := peers;
    var todo := peers.Keys;
    while todo != {}
      invariant todo <= peers.Keys
      invariant forall p :: p in kept <==> p in peers && (p in todo || Fresh(peers[p].seen, now, ttl))
      invariant forall p | p in kept :: kept[p] == peers[p]
      decreases todo
    {
      var p :| p in todo;
      if now - kept[p].seen >= ttl {
        kept := kept - {p};
      }
      todo := todo - {p};
    }
  }

  /** Members in some order, stopping at the response limit. */
  method FirstMembers(members: Swarm, l: Limits) returns (answer: seq<DiscoveredPeer>)
    requires l.Valid() && GoodSwarm(members, l)
    ensures IsAnswer(answer, members, l)
    ensures forall p | p in answer :: ValidPeer(p)
  {
    answer := [];
    var todo := members.Keys;
    while todo != {}
      invariant todo <= members.Keys && |answer| + |todo| == |members| && |answer| < l.response
      invariant forall i | 0 <= i < |answer| ::
                  answer[i].id in members && answer[i].id !in todo && members[answer[i].id].peer == answer[i]
      invariant forall i, j | 0 <= i < j < |answer| :: answer[i].id != answer[j].id
      invariant forall p | p in answer :: ValidPeer(p)
      decreases todo
    {
      var id :| id in todo;
      assert GoodRecord(id, members[id]);
      answer := answer + [members[id].peer];
      todo := todo - {id};
      if |answer| == l.response {
        break;
      }
    }
  }

  /** What has been sent, followed by the answer for `peers`, is the whole. */
  ghost predicate Left(whole: string, sent: string, peers: seq<DiscoveredPeer>) {
    (forall p | p in peers :: ValidPeer(p)) && whole == sent + AnswerText(peers)
  }

  lemma OneLine(whole: string, sent: string, peers: seq<DiscoveredPeer>)
    requires peers != [] && Left(whole, sent, peers)
    ensures ValidPeer(peers[0]) && Left(whole, sent + (PeerLine(peers[0]) + "\n"), peers[1..])
    ensures sent + (PeerLine(peers[0]) + "\n") <= whole
  {
    var text, rest := PeerLine(peers[0]) + "\n", AnswerText(peers[1..]);
    assert sent + (text + rest) == sent + text + rest;
  }

  /** One line per peer, each in its own write, then END. */
  method WriteAnswer(reply: Stream, peers: seq<DiscoveredPeer>) returns (ok: bool)
    requires forall p | p in peers :: ValidPeer(p)
    modifies reply
    ensures Written(old(reply.pending), reply.pending, AnswerText(peers), ok) && (reply.healthy ==> ok)
  {
    ghost var whole := reply.pending + AnswerText(peers);
    assert peers[0..] == peers;
    for i := 0 to |peers|
      invariant Left(whole, reply.pending, peers[i..]) && old(reply.pending) <= reply.pending
    {
      OneLine(whole, reply.pending, peers[i..]);
      assert peers[i..][1..] == peers[i + 1..];
      ok := WriteAll(reply, PeerLine(peers[i]) + "\n");
      if !ok {
        return;
      }
    }
    assert peers[|peers|..] == [];
    ok := WriteAll(reply, "END\n");
  }
}
