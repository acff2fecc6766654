/** What a peer announces and when the announcement can be sent at all (src/tracker.cpp:80-89). */
module Announcements {
  import opened Base
  import opened Text
  import opened ChunkLists
  import opened Protocol
  import opened TrackerRelay

  /** The advertisement a client holds, with the client's own token. */
  datatype Advertisement = Advertisement(
    token: string, swarm: string, peer: string, port: nat, chunks: seq<nat>, hasAll: bool)

  /** The request the tracker should see: a peer that has everything lists nothing. */
  function Intended(a: Advertisement): TrackerRequest {
    Announce(a.token, a.swarm, a.peer, a.port, a.hasAll, if a.hasAll then [] else a.chunks)
  }

  function Fields(a: Advertisement): seq<string>
    requires Encode(a.chunks, a.hasAll).Ok?
  {
    ["ANNOUNCE", a.token, a.swarm, a.peer, Digits(a.port), Encode(a.chunks, a.hasAll).value]
  }

  /** `announce` up to the connection: the list must print and the header must pass the tracker's own parser. */
  predicate Sendable(a: Advertisement) {
    Encode(a.chunks, a.hasAll).Ok? && ParseTrackerRequest(HeaderText(Fields(a))).Ok?
  }

  function HeaderLength(a: Advertisement): nat
    requires Encode(a.chunks, a.hasAll).Ok?
  {
    13 + |a.token| + |a.swarm| + |a.peer| + |Digits(a.port)| + |Encode(a.chunks, a.hasAll).value|
  }

  predicate WellFormed(a: Advertisement) {
    SafeAtom(a.token) && SafeAtom(a.swarm) && SafeAtom(a.peer) && ValidPort(a.port)
  }

  lemma SpacedFieldRefused(a: Advertisement, k: nat)
    requires Encode(a.chunks, a.hasAll).Ok? && k < 6 && ' ' in Fields(a)[k]
    ensures ParseTrackerRequest(HeaderText(Fields(a))).Err?
  {
    var header := HeaderText(Fields(a));
    SpacesSome(Fields(a)[k]);
    JoinSpaces(Fields(a), k);
    FieldCount(header);
    assert |Split(header, ' ')| > 6;
  }

  lemma ListIsWord(a: Advertisement)
    requires Encode(a.chunks, a.hasAll).Ok?
    ensures ' ' !in Encode(a.chunks, a.hasAll).value
  {
    if !a.hasAll && a.chunks != [] {
      EncodedIsWord(a.chunks, a.hasAll);
    }
  }

  lemma PortText(port: nat)
    requires port <= MAX_UINT32
    ensures ParseNumber(Digits(port), MAX_UINT32) == Ok(port) && ' ' !in Digits(port)
  {
    ParseOfDigits(port, MAX_UINT32);
    DigitsPlain(port);
  }

  lemma IllFormedRefused(a: Advertisement)
    requires Encode(a.chunks, a.hasAll).Ok? && a.port <= MAX_UINT32 && !WellFormed(a)
    ensures ParseTrackerRequest(HeaderText(Fields(a))).Err?
  {
    var fields := Fields(a);
    if k :| 1 <= k <= 3 && ' ' in fields[k] {
      SpacedFieldRefused(a, k);
    } else {
      PortText(a.port);
      ListIsWord(a);
      forall f | f in fields
        ensures ' ' !in f
      {
        assert f == fields[0] || f == fields[1] || f == fields[2] || f == fields[3] || f == fields[4] || f == fields[5];
      }
      SplitJoin(fields, ' ');
      assert ParseRequestFields(fields).Err?;
    }
  }

  /** An announcement reaches the tracker as intended exactly when its atoms are atoms and its header fits. */
  lemma AnnouncementOutcome(a: Advertisement)
    requires Encode(a.chunks, a.hasAll).Ok? && Bounded(a.chunks) && a.port <= MAX_UINT32
    ensures |HeaderText(Fields(a))| == HeaderLength(a)
    ensures ParseTrackerRequest(HeaderText(Fields(a)))
         == if WellFormed(a) && HeaderLength(a) <= MAX_HEADER_BYTES then Ok(Intended(a)) else Err
  {
    Length6("ANNOUNCE", a.token, a.swarm, a.peer, Digits(a.port), Encode(a.chunks, a.hasAll).value);
    if WellFormed(a) {
      assert ValidAnnounce(Intended(a)) && AnnounceFields(Intended(a)) == Fields(a);
      AnnounceRoundTrip(Intended(a));
    } else {
      IllFormedRefused(a);
    }
  }

  lemma {:induction false} ListTextLength(xs: seq<nat>)
    requires xs != []
    ensures |ListText(xs)| >= 2 * |xs| - 1
  {
    if |xs| > 1 {
      ListTextLength(xs[1..]);
      JoinCons(Digits(xs[0]), Numerals(xs[1..]), ',');
      assert Numerals(xs) == [Digits(xs[0])] + Numerals(xs[1..]);
    } else {
      assert Numerals(xs) == [Digits(xs[0])];
    }
  }

  const UNSENDABLE_LENGTH: nat := 4089

  /** A list of this many chunks, short of all, cannot be announced, whatever the names and the port. */
  lemma LongListUnsendable(a: Advertisement)
    requires !a.hasAll && |a.chunks| >= UNSENDABLE_LENGTH && Bounded(a.chunks) && a.port <= MAX_UINT32
    ensures !Sendable(a)
  {
    if Encode(a.chunks, a.hasAll).Ok? {
      ListTextLength(a.chunks);
      AnnouncementOutcome(a);
    }
  }

  /** Nothing yet and everything can always be announced under proper names. */
  lemma ShortAnnouncementsFit(a: Advertisement)
    requires WellFormed(a) && (a.hasAll || a.chunks == []) && Bounded(a.chunks)
    ensures Sendable(a)
  {
    Uint32Length(a.port);
    AnnouncementOutcome(a);
  }
}
