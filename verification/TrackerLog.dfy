/**
 The tracker without a table: which announcements a plain log of requests keeps, by counting the peers that are
 live in it.  The table agrees with it on every log (src/tracker.cpp:244-321).
 */
module TrackerLog {
  import opened Protocol
  import opened TrackerTable

  // ---------------------------------------------------------------- the reference

  /** Request `k` announces this peer of this swarm. */
  predicate Announces(log: seq<Request>, k: nat, swarm: string, peer: string)
    requires k < |log|
  {
    log[k].Announced? && log[k].swarm == swarm && log[k].peer.id == peer
  }

  /** Seen at request `k`, the peer is younger than the TTL at every later request and at `now`. */
  ghost predicate YoungSince(l: Limits, log: seq<Request>, k: nat, now: int)
    requires k < |log|
  {
    now - log[k].now < l.ttl && forall j | k < j < |log| :: log[j].now - log[k].now < l.ttl
  }

  /** Request `k` is the last one kept for this peer, and it is still young. */
  ghost predicate LiveAt(l: Limits, log: seq<Request>, kept: seq<bool>, k: nat, swarm: string, peer: string, now: int)
    requires k < |log| == |kept|
  {
    && kept[k] && Announces(log, k, swarm, peer) && YoungSince(l, log, k, now)
    && forall j: nat | k < j < |log| && kept[j] :: !Announces(log, j, swarm, peer)
  }

  ghost predicate Live(l: Limits, log: seq<Request>, kept: seq<bool>, swarm: string, peer: string, now: int)
    requires |log| == |kept|
  {
    exists k: nat :: k < |log| && LiveAt(l, log, kept, k, swarm, peer, now)
  }

  ghost function PeersNamed(log: seq<Request>, swarm: string): set<string> {
    set k | 0 <= k < |log| && log[k].Announced? && log[k].swarm == swarm :: log[k].peer.id
  }

  ghost function SwarmsNamed(log: seq<Request>): set<string> {
    set k | 0 <= k < |log| && log[k].Announced? :: log[k].swarm
  }

  ghost function LivePeers(l: Limits, log: seq<Request>, kept: seq<bool>, swarm: string, now: int): (peers: set<string>)
    requires |log| == |kept|
    ensures forall p :: p in peers <==> Live(l, log, kept, swarm, p, now)
  {
    var peers := set p | p in PeersNamed(log, swarm) && Live(l, log, kept, swarm, p, now);
    assert forall p | Live(l, log, kept, swarm, p, now) :: p in PeersNamed(log, swarm);
    peers
  }

  ghost function LiveSwarms(l: Limits, log: seq<Request>, kept: seq<bool>, now: int): set<string>
    requires |log| == |kept|
  {
    set s | s in SwarmsNamed(log) && LivePeers(l, log, kept, s, now) != {}
  }

  /** Room for an announcement: the peer is live, or its live swarm is not full, or a new swarm fits. */
  ghost predicate HasRoom(l: Limits, log: seq<Request>, kept: seq<bool>, q: Request)
    requires |log| == |kept| && q.Announced?
  {
    var mates := LivePeers(l, log, kept, q.swarm, q.now);
    if mates == {} then |LiveSwarms(l, log, kept, q.now)| < l.swarms
    else q.peer.id in mates || |mates| < l.peers
  }

  /** Which requests of the log are announcements that are kept. */
  ghost function Kept(l: Limits, log: seq<Request>): (kept: seq<bool>)
    ensures |kept| == |log|
  {
    if log == [] then [] else
      var before, q := log[..|log| - 1], log[|log| - 1];
      Kept(l, before) + [q.Announced? && HasRoom(l, before, Kept(l, before), q)]
  }

  // ---------------------------------------------------------------- the table agrees

  /** The table stored exactly what the reference keeps. */
  ghost predicate SameDecisions(l: Limits, log: seq<Request>) {
    forall swarm, peer, k: nat | k < |log| ::
      StoredAt(l, log, k, swarm, peer) <==> Kept(l, log)[k] && Announces(log, k, swarm, peer)
  }

  lemma StandingIsLive(l: Limits, log: seq<Request>, k: nat, swarm: string, peer: string, now: int)
    requires SameDecisions(l, log) && k < |log|
    ensures Standing(l, log, k, swarm, peer) && Fresh(log[k].now, now, l.ttl)
            <==> LiveAt(l, log, Kept(l, log), k, swarm, peer, now)
  {
    var kept := Kept(l, log);
    assert StoredAt(l, log, k, swarm, peer) <==> kept[k] && Announces(log, k, swarm, peer);
    if LiveAt(l, log, kept, k, swarm, peer, now) {
      forall j | k < j < |log|
        ensures !StoredAt(l, log, j, swarm, peer)
      {
        assert StoredAt(l, log, j, swarm, peer) <==> kept[j] && Announces(log, j, swarm, peer);
      }
    }
    if Standing(l, log, k, swarm, peer) {
      forall j: nat | k < j < |log| && kept[j]
        ensures !Announces(log, j, swarm, peer)
      {
        assert StoredAt(l, log, j, swarm, peer) <==> kept[j] && Announces(log, j, swarm, peer);
      }
    }
  }

  /** A record survives pruning at `now` exactly when the reference calls its peer live. */
  lemma FreshRecordIsLive(l: Limits, log: seq<Request>, swarm: string, peer: string, now: int)
    requires SameDecisions(l, log)
    ensures var t := TableAfter(l, log);
            Has(t, swarm, peer) && Fresh(t[swarm][peer].seen, now, l.ttl)
            <==> Live(l, log, Kept(l, log), swarm, peer, now)
  {
    var t := TableAfter(l, log);
    TableAgreesWithLog(l, log, swarm, peer);
    if Has(t, swarm, peer) && Fresh(t[swarm][peer].seen, now, l.ttl) {
      var k: nat :| k < |log| && Standing(l, log, k, swarm, peer);
      StandingIsLive(l, log, k, swarm, peer, now);
    }
    if Live(l, log, Kept(l, log), swarm, peer, now) {
      var k: nat :| k < |log| && LiveAt(l, log, Kept(l, log), k, swarm, peer, now);
      StandingIsLive(l, log, k, swarm, peer, now);
    }
  }

  /** Pruning leaves exactly the live peers of each swarm ... */
  lemma PrunedPeersAreLive(l: Limits, log: seq<Request>, swarm: string, now: int)
    requires SameDecisions(l, log)
    ensures Members(Pruned(TableAfter(l, log), now, l.ttl), swarm).Keys == LivePeers(l, log, Kept(l, log), swarm, now)
  {
    var t := TableAfter(l, log);
    var members := Members(Pruned(t, now, l.ttl), swarm);
    forall p
      ensures p in members <==> Live(l, log, Kept(l, log), swarm, p, now)
    {
      FreshRecordIsLive(l, log, swarm, p, now);
      PrunedHas(t, now, l.ttl, swarm, p);
    }
  }

  lemma PrunedHas(t: Table, now: int, ttl: nat, swarm: string, peer: string)
    ensures peer in Members(Pruned(t, now, ttl), swarm) <==> Has(t, swarm, peer) && Fresh(t[swarm][peer].seen, now, ttl)
  {
    if Has(t, swarm, peer) && Fresh(t[swarm][peer].seen, now, ttl) {
      assert peer in PrunedSwarm(t[swarm], now, ttl);
    }
  }

  lemma PrunedSwarmsHaveMembers(t: Table, now: int, ttl: nat, swarm: string)
    ensures swarm in Pruned(t, now, ttl) <==> Members(Pruned(t, now, ttl), swarm).Keys != {}
  {
    if swarm in t && PrunedSwarm(t[swarm], now, ttl) != map[] {
      var p :| p in PrunedSwarm(t[swarm], now, ttl);
      assert p in Members(Pruned(t, now, ttl), swarm).Keys;
    }
  }

  lemma LiveSwarmIsNamed(l: Limits, log: seq<Request>, kept: seq<bool>, swarm: string, now: int)
    requires |log| == |kept| && LivePeers(l, log, kept, swarm, now) != {}
    ensures swarm in SwarmsNamed(log)
  {
    var p :| p in LivePeers(l, log, kept, swarm, now);
    var k: nat :| k < |log| && LiveAt(l, log, kept, k, swarm, p, now);
    assert log[k].swarm == swarm;
  }

  /** ... and exactly the swarms that have one. */
  lemma PrunedSwarmsAreLive(l: Limits, log: seq<Request>, now: int)
    requires SameDecisions(l, log)
    ensures Pruned(TableAfter(l, log), now, l.ttl).Keys == LiveSwarms(l, log, Kept(l, log), now)
  {
    var t := TableAfter(l, log);
    forall s
      ensures s in Pruned(t, now, l.ttl) <==> s in LiveSwarms(l, log, Kept(l, log), now)
    {
      PrunedPeersAreLive(l, log, s, now);
      PrunedSwarmsHaveMembers(t, now, l.ttl, s);
      if LivePeers(l, log, Kept(l, log), s, now) != {} {
        LiveSwarmIsNamed(l, log, Kept(l, log), s, now);
      }
    }
  }

  /** An announcement is accepted exactly when the log has room for it. */
  lemma AcceptedIffRoom(l: Limits, log: seq<Request>, q: Request)
    requires SameDecisions(l, log) && q.Announced?
    ensures Accepts(TableAfter(l, log), l, q) <==> HasRoom(l, log, Kept(l, log), q)
  {
    var pruned := Pruned(TableAfter(l, log), q.now, l.ttl);
    PrunedPeersAreLive(l, log, q.swarm, q.now);
    PrunedSwarmsAreLive(l, log, q.now);
    PrunedSwarmsHaveMembers(TableAfter(l, log), q.now, l.ttl, q.swarm);
    assert |pruned| == |pruned.Keys|;
    assert |Members(pruned, q.swarm)| == |Members(pruned, q.swarm).Keys|;
  }

  lemma DecisionsExtend(l: Limits, log: seq<Request>, q: Request)
    requires SameDecisions(l, log)
    ensures SameDecisions(l, log + [q])
  {
    var longer := log + [q];
    assert longer[..|log|] == log;
    forall swarm, peer, k: nat | k < |longer|
      ensures StoredAt(l, longer, k, swarm, peer) <==> Kept(l, longer)[k] && Announces(longer, k, swarm, peer)
    {
      if k < |log| {
        FlagsPrefix(l, longer, |log|, swarm, peer);
        assert StoredAt(l, log, k, swarm, peer) <==> Kept(l, log)[k] && Announces(log, k, swarm, peer);
      } else if q.Announced? {
        AcceptedIffRoom(l, log, q);
      }
    }
  }

  lemma {:induction false} AlwaysSameDecisions(l: Limits, log: seq<Request>)
    ensures SameDecisions(l, log)
  {
    if log != [] {
      var before, q := log[..|log| - 1], log[|log| - 1];
      AlwaysSameDecisions(l, before);
      DecisionsExtend(l, before, q);
      assert before + [q] == log;
    }
  }

  // ---------------------------------------------------------------- what that means

  /**
   After any log, in any order of clock readings: an announcement is stored exactly when its peer is live in the
   log, or its swarm has live peers but fewer than the limit, or has none and fewer swarms than the limit are live.
   */
  lemma AnnouncementStoredIff(l: Limits, log: seq<Request>, q: Request)
    requires q.Announced?
    ensures Accepts(TableAfter(l, log), l, q) <==> HasRoom(l, log, Kept(l, log), q)
  {
    AlwaysSameDecisions(l, log);
    AcceptedIffRoom(l, log, q);
  }

  /** As long as no more swarms and peers are named than the limits allow, every announcement is stored. */
  lemma EveryoneFits(l: Limits, log: seq<Request>, q: Request)
    requires q.Announced?
    requires |SwarmsNamed(log + [q])| <= l.swarms && |PeersNamed(log + [q], q.swarm)| <= l.peers
    ensures Accepts(TableAfter(l, log), l, q)
  {
    var kept := Kept(l, log);
    var mates, swarms := LivePeers(l, log, kept, q.swarm, q.now), LiveSwarms(l, log, kept, q.now);
    AnnouncementStoredIff(l, log, q);
    NamesGrow(log, q);
    if mates == {} {
      assert q.swarm !in swarms;
      SmallerSet(swarms, q.swarm, SwarmsNamed(log + [q]));
    } else if q.peer.id !in mates {
      forall p | p in mates
        ensures p in PeersNamed(log, q.swarm)
      {
        var k: nat :| k < |log| && LiveAt(l, log, kept, k, q.swarm, p, q.now);
        assert log[k].peer.id == p;
      }
      SmallerSet(mates, q.peer.id, PeersNamed(log + [q], q.swarm));
    }
  }

  lemma NamesGrow(log: seq<Request>, q: Request)
    requires q.Announced?
    ensures SwarmsNamed(log) <= SwarmsNamed(log + [q]) && q.swarm in SwarmsNamed(log + [q])
    ensures PeersNamed(log, q.swarm) <= PeersNamed(log + [q], q.swarm) && q.peer.id in PeersNamed(log + [q], q.swarm)
  {
    var longer := log + [q];
    assert longer[|log|] == q;
    forall k: nat | k < |log|
      ensures longer[k] == log[k]
    {
    }
    forall s | s in SwarmsNamed(log)
      ensures s in SwarmsNamed(longer)
    {
      var k :| 0 <= k < |log| && log[k].Announced? && log[k].swarm == s;
      assert longer[k].swarm == s;
    }
    forall p | p in PeersNamed(log, q.swarm)
      ensures p in PeersNamed(longer, q.swarm)
    {
      var k :| 0 <= k < |log| && log[k].Announced? && log[k].swarm == q.swarm && log[k].peer.id == p;
      assert longer[k].peer.id == p;
    }
  }

  lemma SmallerSet(a: set<string>, x: string, b: set<string>)
    requires a <= b && x in b && x !in a
    ensures |a| < |b|
  {
    assert a + {x} <= b;
    SubsetSize(a + {x}, b);
  }

  lemma SubsetSize(a: set<string>, b: set<string>)
    requires a <= b
    ensures |a| <= |b|
  {
    assert b == a + (b - a);
  }

  /** The live peers of a swarm, each as its last kept announcement said. */
  ghost predicate LiveAs(l: Limits, log: seq<Request>, swarm: string, p: DiscoveredPeer, now: int) {
    exists k: nat :: k < |log| && LiveAt(l, log, Kept(l, log), k, swarm, p.id, now) && log[k].peer == p
  }

  /** A query finds exactly the peers that are live in the log before it, in any order of clock readings. */
  lemma QueryFindsExactlyTheLive(l: Limits, log: seq<Request>, swarm: string, now: int)
    ensures var found := Members(TableAfter(l, log + [Queried(swarm, now)]), swarm);
            && found.Keys == LivePeers(l, log, Kept(l, log), swarm, now)
            && forall id | id in found :: LiveAs(l, log, swarm, found[id].peer, now) && found[id].peer.id == id
  {
    var q := Queried(swarm, now);
    assert (log + [q])[..|log|] == log;
    AlwaysSameDecisions(l, log);
    var found := Members(TableAfter(l, log + [q]), swarm);
    assert found == Members(Pruned(TableAfter(l, log), now, l.ttl), swarm);
    PrunedPeersAreLive(l, log, swarm, now);
    forall id | id in found
      ensures LiveAs(l, log, swarm, found[id].peer, now) && found[id].peer.id == id
    {
      FoundIsLive(l, log, swarm, now, id);
    }
  }

  lemma FoundIsLive(l: Limits, log: seq<Request>, swarm: string, now: int, id: string)
    requires SameDecisions(l, log) && id in Members(Pruned(TableAfter(l, log), now, l.ttl), swarm)
    ensures var p := Members(Pruned(TableAfter(l, log), now, l.ttl), swarm)[id].peer;
            LiveAs(l, log, swarm, p, now) && p.id == id
  {
    var t := TableAfter(l, log);
    PrunedHas(t, now, l.ttl, swarm, id);
    TableAgreesWithLog(l, log, swarm, id);
    var k: nat :| k < |log| && Standing(l, log, k, swarm, id);
    StandingIsLive(l, log, k, swarm, id, now);
  }

  /** With clock readings in order, young since then is young now. */
  lemma YoungWhenInOrder(l: Limits, log: seq<Request>, k: nat, now: int)
    requires ClockMovesForward(log) && k < |log| && log[|log| - 1].now <= now
    ensures YoungSince(l, log, k, now) <==> now - log[k].now < l.ttl
  {
  }
}
