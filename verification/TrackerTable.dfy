/** The tracker's lazily pruned, bounded table of peers against a log of its requests (src/tracker.cpp:236-321). */
module TrackerTable {
  import opened Base
  import opened Protocol
  import opened TrackerRelay

  datatype Record = Record(peer: DiscoveredPeer, seen: int)
  type Swarm = map<string, Record>
  type Table = map<string, Swarm>

  datatype Limits = Limits(swarms: nat, peers: nat, response: nat, ttl: nat) {
    predicate Valid() {
      swarms > 0 && peers > 0 && 0 < response <= peers && ttl > 0
    }
  }

  // ---------------------------------------------------------------- one request

  predicate Fresh(seen: int, now: int, ttl: nat) {
    now - seen < ttl
  }

  function PrunedSwarm(s: Swarm, now: int, ttl: nat): Swarm {
    map p | p in s && Fresh(s[p].seen, now, ttl) :: s[p]
  }

  /** The table without expired records and without swarms left empty. */
  function Pruned(t: Table, now: int, ttl: nat): Table {
    map s | s in t && PrunedSwarm(t[s], now, ttl) != map[] :: PrunedSwarm(t[s], now, ttl)
  }

  predicate Has(t: Table, swarm: string, peer: string) {
    swarm in t && peer in t[swarm]
  }

  /** Room for the peer: it is there already, its swarm has room, or there is room for its swarm. */
  predicate Admits(t: Table, l: Limits, swarm: string, peer: string) {
    if swarm in t then peer in t[swarm] || |t[swarm]| < l.peers else |t| < l.swarms
  }

  function Put(t: Table, swarm: string, r: Record): Table {
    t[swarm := (if swarm in t then t[swarm] else map[])[r.peer.id := r]]
  }

  datatype Request =
    | Announced(swarm: string, peer: DiscoveredPeer, now: int)
    | Queried(swarm: string, now: int)

  /** Whether an announcement is stored, given the table before it. */
  predicate Accepts(t: Table, l: Limits, q: Request) {
    q.Announced? && Admits(Pruned(t, q.now, l.ttl), l, q.swarm, q.peer.id)
  }

  /** Every request prunes; an accepted announcement then stores its peer. */
  function After(t: Table, l: Limits, q: Request): Table {
    var pruned := Pruned(t, q.now, l.ttl);
    if Accepts(t, l, q) then Put(pruned, q.swarm, Record(q.peer, q.now)) else pruned
  }

  /** The table after the requests, in the order in which they took the lock. */
  function TableAfter(l: Limits, log: seq<Request>): Table {
    if log == [] then map[] else After(TableAfter(l, log[..|log| - 1]), l, log[|log| - 1])
  }

  // ---------------------------------------------------------------- bounds, in any order of clock readings

  /** Within limits, no empty swarm, every record under its own id and printable. */
  predicate WithinBounds(t: Table, l: Limits) {
    |t| <= l.swarms && forall s | s in t :: GoodSwarm(t[s], l)
  }

  predicate GoodSwarm(s: Swarm, l: Limits) {
    0 < |s| <= l.peers && forall p | p in s :: GoodRecord(p, s[p])
  }

  predicate GoodRecord(id: string, r: Record) {
    r.peer.id == id && ValidPeer(r.peer)
  }

  predicate ValidRequest(q: Request) {
    q.Announced? ==> ValidPeer(q.peer)
  }

  lemma SubmapSize<K, V>(a: map<K, V>, b: map<K, V>)
    requires a.Keys <= b.Keys
    ensures |a| <= |b|
  {
    assert |b.Keys - a.Keys| == |b.Keys| - |a.Keys| by {
      assert b.Keys == (b.Keys - a.Keys) + a.Keys;
    }
  }

  lemma PrunedWithinBounds(t: Table, l: Limits, now: int)
    requires WithinBounds(t, l)
    ensures WithinBounds(Pruned(t, now, l.ttl), l)
  {
    var pruned := Pruned(t, now, l.ttl);
    SubmapSize(pruned, t);
    forall s | s in pruned
      ensures GoodSwarm(pruned[s], l)
    {
      assert GoodSwarm(t[s], l);
      SubmapSize(pruned[s], t[s]);
    }
  }

  lemma UpdateSize<K, V>(m: map<K, V>, k: K, v: V)
    ensures |m[k := v]| == if k in m then |m| else |m| + 1
  {
    assert m[k := v].Keys == m.Keys + {k};
  }

  lemma PutInSwarm(s: Swarm, l: Limits, r: Record)
    requires s == map[] || GoodSwarm(s, l)
    requires l.Valid() && GoodRecord(r.peer.id, r) && (r.peer.id in s || |s| < l.peers)
    ensures GoodSwarm(s[r.peer.id := r], l)
  {
    UpdateSize(s, r.peer.id, r);
  }

  lemma PutWithinBounds(t: Table, l: Limits, swarm: string, r: Record)
    requires l.Valid() && WithinBounds(t, l) && ValidPeer(r.peer) && Admits(t, l, swarm, r.peer.id)
    ensures WithinBounds(Put(t, swarm, r), l)
  {
    var members := if swarm in t then t[swarm] else map[];
    assert swarm in t ==> GoodSwarm(t[swarm], l);
    assert GoodRecord(r.peer.id, r);
    PutInSwarm(members, l, r);
    UpdateSize(t, swarm, members[r.peer.id := r]);
  }

  /** The limits hold in every run, whatever the clock readings. */
  lemma {:induction false} RunsStayWithinBounds(l: Limits, log: seq<Request>)
    requires l.Valid() && forall q | q in log :: ValidRequest(q)
    ensures WithinBounds(TableAfter(l, log), l)
  {
    if log != [] {
      var before, q := log[..|log| - 1], log[|log| - 1];
      RunsStayWithinBounds(l, before);
      assert ValidRequest(q);
      var t := TableAfter(l, before);
      PrunedWithinBounds(t, l, q.now);
      if Accepts(t, l, q) {
        PutWithinBounds(Pruned(t, q.now, l.ttl), l, q.swarm, Record(q.peer, q.now));
      }
    }
  }

  /** A peer still live after pruning is never refused for capacity. */
  lemma LivePeerNeverRefused(t: Table, l: Limits, swarm: string, peer: DiscoveredPeer, now: int)
    requires Has(t, swarm, peer.id) && Fresh(t[swarm][peer.id].seen, now, l.ttl)
    ensures Accepts(t, l, Announced(swarm, peer, now))
  {
    assert peer.id in PrunedSwarm(t[swarm], now, l.ttl);
  }

  // ---------------------------------------------------------------- agreement with the log

  /** The request stores this peer into the table. */
  predicate Stores(t: Table, l: Limits, q: Request, swarm: string, peer: string) {
    q.Announced? && q.swarm == swarm && q.peer.id == peer && Accepts(t, l, q)
  }

  /** For each request of the log, whether it stored this peer. */
  function StoredFlags(l: Limits, log: seq<Request>, swarm: string, peer: string): (flags: seq<bool>)
    ensures |flags| == |log|
    ensures forall j | 0 <= j < |log| && flags[j] ::
              log[j].Announced? && log[j].swarm == swarm && log[j].peer.id == peer
  {
    if log == [] then [] else
      var before := log[..|log| - 1];
      StoredFlags(l, before, swarm, peer) + [Stores(TableAfter(l, before), l, log[|log| - 1], swarm, peer)]
  }

  /** Request `k` of the log stored this peer. */
  predicate StoredAt(l: Limits, log: seq<Request>, k: nat, swarm: string, peer: string)
    requires k < |log|
  {
    StoredFlags(l, log, swarm, peer)[k]
  }

  lemma {:induction false} FlagsPrefix(l: Limits, log: seq<Request>, n: nat, swarm: string, peer: string)
    requires n <= |log|
    ensures StoredFlags(l, log[..n], swarm, peer) == StoredFlags(l, log, swarm, peer)[..n]
  {
    if n == |log| {
      assert log[..n] == log;
    } else {
      var before := log[..|log| - 1];
      FlagsPrefix(l, before, n, swarm, peer);
      assert before[..n] == log[..n];
    }
  }

  /** The flag is about the table the request met, which depends on the earlier requests only. */
  lemma StoredAtMeaning(l: Limits, log: seq<Request>, k: nat, swarm: string, peer: string)
    requires k < |log|
    ensures StoredAt(l, log, k, swarm, peer) <==> Stores(TableAfter(l, log[..k]), l, log[k], swarm, peer)
  {
    FlagsPrefix(l, log, k + 1, swarm, peer);
    var prefix := log[..k + 1];
    assert prefix[..k] == log[..k] && prefix[k] == log[k];
    assert StoredFlags(l, prefix, swarm, peer)[k] == StoredFlags(l, log, swarm, peer)[k];
  }

  /** Request `k` is the last that stored this peer, and every later request still found that record fresh. */
  predicate Standing(l: Limits, log: seq<Request>, k: nat, swarm: string, peer: string)
    requires k < |log|
  {
    && StoredAt(l, log, k, swarm, peer)
    && (forall j | k < j < |log| :: !StoredAt(l, log, j, swarm, peer))
    && (forall j | k < j < |log| :: Fresh(log[k].now, log[j].now, l.ttl))
  }

  lemma StandingEarlier(l: Limits, log: seq<Request>, k: nat, swarm: string, peer: string)
    requires k < |log| - 1
    ensures Standing(l, log, k, swarm, peer) <==>
              && Standing(l, log[..|log| - 1], k, swarm, peer)
              && !StoredAt(l, log, |log| - 1, swarm, peer)
              && Fresh(log[k].now, log[|log| - 1].now, l.ttl)
  {
    var n := |log| - 1;
    var before := log[..n];
    FlagsPrefix(l, log, n, swarm, peer);
    forall j: nat | j < n
      ensures StoredAt(l, before, j, swarm, peer) <==> StoredAt(l, log, j, swarm, peer)
      ensures before[j] == log[j]
    {
    }
  }

  /**
   A peer is in the table exactly when its last stored announcement was still fresh for every request since,
   and then the record is that announcement.  No assumption on the order of the clock readings.
   */
  lemma {:induction false} TableAgreesWithLog(l: Limits, log: seq<Request>, swarm: string, peer: string)
    ensures Has(TableAfter(l, log), swarm, peer) <==> exists k: nat :: k < |log| && Standing(l, log, k, swarm, peer)
    ensures forall k: nat | k < |log| && Standing(l, log, k, swarm, peer) ::
              Has(TableAfter(l, log), swarm, peer)
              && TableAfter(l, log)[swarm][peer] == Record(log[k].peer, log[k].now)
  {
    if log != [] {
      var n := |log| - 1;
      var before, q := log[..n], log[n];
      var t := TableAfter(l, before);
      TableAgreesWithLog(l, before, swarm, peer);
      forall k: nat | k < |log|
        ensures k < n ==> (Standing(l, log, k, swarm, peer) <==>
                  Standing(l, before, k, swarm, peer) && !StoredAt(l, log, n, swarm, peer)
                  && Fresh(log[k].now, q.now, l.ttl))
        ensures k == n ==> (Standing(l, log, k, swarm, peer) <==> StoredAt(l, log, k, swarm, peer))
      {
        if k < n {
          StandingEarlier(l, log, k, swarm, peer);
        }
      }
      assert before == log[..n];
      StepOnRecord(t, l, q, swarm, peer);
      if StoredAt(l, log, n, swarm, peer) {
        assert Standing(l, log, n, swarm, peer);
      } else if Has(t, swarm, peer) {
        var k: nat :| k < n && Standing(l, before, k, swarm, peer);
        assert before[k] == log[k];
        if Fresh(t[swarm][peer].seen, q.now, l.ttl) {
          assert Standing(l, log, k, swarm, peer);
        }
      }
    }
  }

  /** What one request does to one record. */
  lemma StepOnRecord(t: Table, l: Limits, q: Request, swarm: string, peer: string)
    ensures var stored := Stores(t, l, q, swarm, peer);
            && (stored ==> Has(After(t, l, q), swarm, peer) && After(t, l, q)[swarm][peer] == Record(q.peer, q.now))
            && (!stored ==>
                 && (Has(After(t, l, q), swarm, peer) <==> Has(t, swarm, peer) && Fresh(t[swarm][peer].seen, q.now, l.ttl))
                 && (Has(After(t, l, q), swarm, peer) ==> After(t, l, q)[swarm][peer] == t[swarm][peer]))
  {
    var pruned := Pruned(t, q.now, l.ttl);
    if Has(t, swarm, peer) && Fresh(t[swarm][peer].seen, q.now, l.ttl) {
      assert peer in PrunedSwarm(t[swarm], q.now, l.ttl);
    }
    assert Has(pruned, swarm, peer) <==> Has(t, swarm, peer) && Fresh(t[swarm][peer].seen, q.now, l.ttl);
  }

  ghost predicate ClockMovesForward(log: seq<Request>) {
    forall i, j | 0 <= i < j < |log| :: log[i].now <= log[j].now
  }

  /** With a forward-moving clock only the latest reading matters: live means younger than the TTL now. */
  lemma StandingMeansYoung(l: Limits, log: seq<Request>, k: nat, swarm: string, peer: string)
    requires l.Valid() && ClockMovesForward(log) && k < |log|
    ensures Standing(l, log, k, swarm, peer) <==>
              && StoredAt(l, log, k, swarm, peer)
              && (forall j | k < j < |log| :: !StoredAt(l, log, j, swarm, peer))
              && Fresh(log[k].now, log[|log| - 1].now, l.ttl)
  {
  }

  /** Two requests of one peer apart, read by handlers that took the lock in the other order. */
  function SwappedReadings(peer: DiscoveredPeer): seq<Request> {
    [Announced("s", peer, 0), Queried("s", 10), Queried("s", 0)]
  }

  /**
   Without that assumption the answer can miss a young peer: the handler's clock reading is taken before the
   lock, so a request with a later reading can prune the record first.
   */
  lemma OutOfOrderReadingLosesPeer(peer: DiscoveredPeer)
    requires ValidPeer(peer)
    ensures var l := Limits(1, 1, 1, 10);
            var log := SwappedReadings(peer);
            && StoredAt(l, log, 0, "s", peer.id) && Fresh(log[0].now, log[2].now, l.ttl)
            && !Has(TableAfter(l, log), "s", peer.id)
  {
    var l := Limits(1, 1, 1, 10);
    var log := SwappedReadings(peer);
    assert log[..0] == [];
    assert Pruned(map[], 0, 10) == map[];
    StoredAtMeaning(l, log, 0, "s", peer.id);
    StoredAtMeaning(l, log, 1, "s", peer.id);
    StoredAtMeaning(l, log, 2, "s", peer.id);
    TableAgreesWithLog(l, log, "s", peer.id);
    forall k: nat | k < |log|
      ensures !Standing(l, log, k, "s", peer.id)
    {
      assert k == 0 ==> !Fresh(log[0].now, log[1].now, l.ttl);
    }
  }

  // ---------------------------------------------------------------- answers

  /** The peers of a swarm; none when the table has no such swarm. */
  function Members(t: Table, swarm: string): Swarm {
    if swarm in t then t[swarm] else map[]
  }

  /** A legal answer lists distinct members, all of them if they fit and otherwise as many as allowed. */
  predicate IsAnswer(answer: seq<DiscoveredPeer>, members: Swarm, l: Limits) {
    && |answer| == Min(|members|, l.response)
    && (forall i | 0 <= i < |answer| :: answer[i].id in members && members[answer[i].id].peer == answer[i])
    && (forall i, j | 0 <= i < j < |answer| :: answer[i].id != answer[j].id)
  }

  lemma {:induction false} DistinctIds(answer: seq<DiscoveredPeer>, ids: set<string>)
    requires forall i, j | 0 <= i < j < |answer| :: answer[i].id != answer[j].id
    requires ids == set i | 0 <= i < |answer| :: answer[i].id
    ensures |ids| == |answer|
  {
    if answer != [] {
      var n := |answer| - 1;
      var front := answer[..n];
      var rest := set i | 0 <= i < |front| :: front[i].id;
      DistinctIds(front, rest);
      assert ids == rest + {answer[n].id};
      assert answer[n].id !in rest;
    }
  }

  /** An answer with room for everyone lists everyone. */
  lemma FullAnswerListsAll(answer: seq<DiscoveredPeer>, members: Swarm, l: Limits)
    requires IsAnswer(answer, members, l) && |members| <= l.response
    ensures forall p | p in members :: exists i :: 0 <= i < |answer| && answer[i].id == p
  {
    var ids := set i | 0 <= i < |answer| :: answer[i].id;
    DistinctIds(answer, ids);
    assert ids <= members.Keys;
    assert |members.Keys - ids| == |members.Keys| - |ids| by {
      assert members.Keys == (members.Keys - ids) + ids;
    }
    forall p | p in members
      ensures exists i :: 0 <= i < |answer| && answer[i].id == p
    {
      assert p in ids;
    }
  }

  /** The query that ends the log, and what it finds. */
  function QueriedMembers(l: Limits, log: seq<Request>): Swarm
    requires log != []
  {
    Members(TableAfter(l, log), log[|log| - 1].swarm)
  }

  /** Peer `p` is what some standing announcement of the queried swarm said, and it is younger than the TTL. */
  ghost predicate LiveInLog(l: Limits, log: seq<Request>, p: DiscoveredPeer)
    requires log != []
  {
    exists k: nat ::
      && k < |log| && Standing(l, log, k, log[|log| - 1].swarm, p.id) && p == log[k].peer
      && Fresh(log[k].now, log[|log| - 1].now, l.ttl)
  }

  /** Soundness: each member found is its last stored announcement and is younger than the TTL. */
  lemma MembersAreLive(l: Limits, log: seq<Request>, id: string)
    requires l.Valid() && log != [] && ClockMovesForward(log) && id in QueriedMembers(l, log)
    ensures LiveInLog(l, log, QueriedMembers(l, log)[id].peer)
    ensures QueriedMembers(l, log)[id].peer.id == id
  {
    var swarm := log[|log| - 1].swarm;
    TableAgreesWithLog(l, log, swarm, id);
    var k: nat :| k < |log| && Standing(l, log, k, swarm, id);
    StandingMeansYoung(l, log, k, swarm, id);
  }

  /** Completeness: whoever the log says is live is found. */
  lemma LiveAreMembers(l: Limits, log: seq<Request>, p: DiscoveredPeer)
    requires log != [] && LiveInLog(l, log, p)
    ensures p.id in QueriedMembers(l, log) && QueriedMembers(l, log)[p.id].peer == p
  {
    TableAgreesWithLog(l, log, log[|log| - 1].swarm, p.id);
  }

  /**
   Requests processed in lock order with a forward-moving clock: whatever order the table is walked in, each
   listed peer is its last stored announcement and younger than the TTL; every such peer is listed when all
   fit, and otherwise exactly the allowed number of distinct ones is.
   */
  lemma AnswerAgreesWithLog(l: Limits, log: seq<Request>, answer: seq<DiscoveredPeer>)
    requires l.Valid() && log != [] && ClockMovesForward(log) && log[|log| - 1].Queried?
    requires IsAnswer(answer, QueriedMembers(l, log), l)
    ensures forall i | 0 <= i < |answer| :: LiveInLog(l, log, answer[i])
    ensures |QueriedMembers(l, log)| <= l.response ==> forall p | LiveInLog(l, log, p) :: p in answer
    ensures |QueriedMembers(l, log)| > l.response ==> |answer| == l.response
  {
    var members := QueriedMembers(l, log);
    forall i | 0 <= i < |answer|
      ensures LiveInLog(l, log, answer[i])
    {
      MembersAreLive(l, log, answer[i].id);
    }
    if |members| <= l.response {
      FullAnswerListsAll(answer, members, l);
      forall p | LiveInLog(l, log, p)
        ensures p in answer
      {
        LiveAreMembers(l, log, p);
        var i :| 0 <= i < |answer| && answer[i].id == p.id;
        assert answer[i] == p;
      }
    }
  }
}
