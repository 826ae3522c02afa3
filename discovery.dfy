/**
 * Peer-distance logic and the pure decisions of the discovery server of
 * services/discovery/src/server.rs.
 *
 * `common_prefix_bits` counts the leading bits two byte strings share; the
 * FindPeers reply sends the ten known peers whose ids share the longest
 * prefix with the target; Ping is answered only at the node's own protocol
 * version; a Ping from a local address gets no FindPeers and a local
 * endpoint of a Peers message is not pinged, though a FindPeers from any
 * address is answered with a Ping; a Pong adds its sender to the peer set and
 * rewrites the peers file only when the peer is new.  The UDP socket,
 * timestamps, random target ids and the peers file are not part of this
 * model: the random id is a parameter and the file write is reported as a
 * status.
 */
module Discovery {
  import opened Wrappers

  type Byte = bv8

  function Min(a: nat, b: nat): nat {
    if a <= b then a else b
  }

  /**
   * `u8::leading_zeros`: the number of zero bits above the highest set bit,
   * 8 for zero.  For a non-zero byte, shifting right by `7 - n` leaves
   * exactly the highest set bit.
   */
  function LeadingZeros(x: Byte): (n: nat)
    ensures n <= 8
    ensures n == 8 <==> x == 0
    ensures x != 0 ==> x >> (7 - n) == 1
  {
    if x >= 0x80 then 0
    else if x >= 0x40 then 1
    else if x >= 0x20 then 2
    else if x >= 0x10 then 3
    else if x >= 0x08 then 4
    else if x >= 0x04 then 5
    else if x >= 0x02 then 6
    else if x >= 0x01 then 7
    else 8
  }

  /** The number of leading bits `a` and `b` have in common, compared over the shorter length. */
  function PrefixBits(a: seq<Byte>, b: seq<Byte>): (r: nat)
    ensures r <= 8 * Min(|a|, |b|)
  {
    if a == [] || b == [] then 0
    else if a[0] != b[0] then LeadingZeros(a[0] ^ b[0])
    else 8 + PrefixBits(a[1..], b[1..])
  }

  /** `common_prefix_bits`: a loop over the zipped bytes with an accumulator and an early return. */
  method CommonPrefixBits(a: seq<Byte>, b: seq<Byte>) returns (acc: nat)
    ensures acc == PrefixBits(a, b)
  {
    acc := 0;
    var n := Min(|a|, |b|);
    for i := 0 to n
      invariant acc == 8 * i
      invariant a[..i] == b[..i]
    {
      if a[i] != b[i] {
        PrefixBitsSplit(a, b, i);
        return acc + LeadingZeros(a[i] ^ b[i]);
      }
      acc := acc + 8;
    }
    PrefixBitsSplit(a, b, n);
  }

  /** A shared prefix of `i` bytes contributes exactly `8 * i` bits. */
  lemma {:induction false} PrefixBitsSplit(a: seq<Byte>, b: seq<Byte>, i: nat)
    requires i <= |a| && i <= |b| && a[..i] == b[..i]
    ensures PrefixBits(a, b) == 8 * i + PrefixBits(a[i..], b[i..])
  {
    if i > 0 {
      assert a[0] == a[..i][0] && b[0] == b[..i][0];
      assert a[1..][..i - 1] == a[..i][1..];
      assert b[1..][..i - 1] == b[..i][1..];
      PrefixBitsSplit(a[1..], b[1..], i - 1);
      assert a[1..][i - 1..] == a[i..];
      assert b[1..][i - 1..] == b[i..];
    }
  }

  /** The result is `8 * min(|a|, |b|)` exactly when one input is a prefix of the other. */
  lemma {:induction false} PrefixBitsFullIffPrefix(a: seq<Byte>, b: seq<Byte>)
    ensures PrefixBits(a, b) == 8 * Min(|a|, |b|) <==> (a <= b || b <= a)
  {
    if a != [] && b != [] {
      if a[0] == b[0] {
        PrefixBitsFullIffPrefix(a[1..], b[1..]);
        PrefixOfSameHead(a, b);
        PrefixOfSameHead(b, a);
      } else {
        XorOfDistinctIsNonZero(a[0], b[0]);
        assert PrefixBits(a, b) < 8;
      }
    }
  }

  /** Sequences with the same first element are prefix-related exactly when their tails are. */
  lemma PrefixOfSameHead(a: seq<Byte>, b: seq<Byte>)
    requires a != [] && b != [] && a[0] == b[0]
    ensures a <= b <==> a[1..] <= b[1..]
  {
    assert a == [a[0]] + a[1..] && b == [b[0]] + b[1..];
  }

  /** A byte string shares all its bits with itself. */
  lemma {:induction false} PrefixBitsSelf(a: seq<Byte>)
    ensures PrefixBits(a, a) == 8 * |a|
  {
    PrefixBitsFullIffPrefix(a, a);
  }

  lemma {:induction false} PrefixBitsSymmetric(a: seq<Byte>, b: seq<Byte>)
    ensures PrefixBits(a, b) == PrefixBits(b, a)
  {
    if a != [] && b != [] {
      if a[0] == b[0] {
        PrefixBitsSymmetric(a[1..], b[1..]);
      } else {
        assert a[0] ^ b[0] == b[0] ^ a[0];
      }
    }
  }

  /** Inputs that agree on `k` bytes and differ at byte `k` share `8k` bits plus the leading zeros of the differing bytes' XOR. */
  lemma {:induction false} PrefixBitsAtFirstDifference(a: seq<Byte>, b: seq<Byte>, k: nat)
    requires k < |a| && k < |b|
    requires a[..k] == b[..k] && a[k] != b[k]
    ensures PrefixBits(a, b) == 8 * k + LeadingZeros(a[k] ^ b[k])
    ensures 8 * k <= PrefixBits(a, b) <= 8 * k + 7
  {
    var d := a[k] ^ b[k];
    XorOfDistinctIsNonZero(a[k], b[k]);
    assert LeadingZeros(d) < 8;
    PrefixBitsSplit(a, b, k);
    PrefixBitsAtDifference(a[k..], b[k..]);
  }

  lemma PrefixBitsAtDifference(x: seq<Byte>, y: seq<Byte>)
    requires x != [] && y != [] && x[0] != y[0]
    ensures PrefixBits(x, y) == LeadingZeros(x[0] ^ y[0])
  {
  }

  lemma XorOfDistinctIsNonZero(x: Byte, y: Byte)
    requires x != y
    ensures x ^ y != 0
  {
  }

  /** A UDP socket address as the server sees it: IP text and port. */
  datatype SocketAddr = SocketAddr(ip: string, port: int)

  datatype Endpoint = Endpoint(address: string, port: int, nodeId: seq<Byte>)

  /**
   * A known peer.  `id` holds the node-id bytes; the source stores their hex
   * text, which decodes back to the same bytes.
   */
  datatype Peer = Peer(
    id: seq<Byte>,
    version: int,
    advertisedIp: string,
    advertisedPort: int,
    receivedIp: string,
    receivedPort: int)

  datatype Config = Config(myIp: string, p2pVersion: int)

  /** Incoming discovery messages, without their timestamps. */
  datatype Message =
    | Ping(pingFrom: Option<Endpoint>, pingTo: Option<Endpoint>, version: int)
    | Pong(pongFrom: Option<Endpoint>, echoVersion: int)
    | FindPeers(findFrom: Option<Endpoint>, targetId: seq<Byte>)
    | Peers(peersFrom: Option<Endpoint>, peers: seq<Endpoint>)

  /** What the server sends; every reply also carries the node's own endpoint and a timestamp, not modelled. */
  datatype Reply =
    | SendPong(pongTo: SocketAddr, echoVersion: int)
    | SendFindPeers(findTo: SocketAddr, targetId: seq<Byte>)
    | SendPeers(peersTo: SocketAddr, peers: seq<Peer>)
    | SendPing(pingTo: SocketAddr, target: Option<Endpoint>, version: int)

  /** The most peers a FindPeers reply carries. */
  const MaxNearbyPeers: nat := 10

  /** The node id placed in the `to` endpoint of a Ping sent to an address learnt from a Peers message: 64 bytes of 63. */
  const UnknownNodeId: seq<Byte> := seq(64, _ => 63 as bv8)

  /**
   * Loopback, the node's own outbound IP and 192.168.1.1: a Ping from one of
   * these is not followed by a FindPeers, and a Peers endpoint at one of them
   * is not pinged.  The Ping that answers a FindPeers is not filtered.
   */
  predicate IsLocalAddress(ip: string, config: Config) {
    ip == "127.0.0.1" || ip == config.myIp || ip == "192.168.1.1"
  }

  /** Replies to a Ping from `sender`; `randomId` is the random FindPeers target. */
  function PingReplies(version: int, sender: SocketAddr, config: Config, randomId: seq<Byte>): (out: seq<Reply>)
    ensures version != config.p2pVersion ==> out == []
    ensures version == config.p2pVersion ==> out != [] && out[0] == SendPong(sender, config.p2pVersion)
    ensures |out| <= 2
    ensures forall k :: 0 < k < |out| ==> out[k] == SendFindPeers(sender, randomId)
    ensures (exists k :: 0 <= k < |out| && out[k].SendFindPeers?) <==>
      version == config.p2pVersion && !IsLocalAddress(sender.ip, config)
  {
    if version != config.p2pVersion then []
    else
      var pong := SendPong(sender, config.p2pVersion);
      if IsLocalAddress(sender.ip, config) then [pong]
      else
        var out := [pong, SendFindPeers(sender, randomId)];
        assert out[1].SendFindPeers?;
        out
  }

  /** The prefix score of a peer with respect to a FindPeers target. */
  function Score(p: Peer, target: seq<Byte>): nat {
    PrefixBits(p.id, target)
  }

  predicate SortedByScore(s: seq<Peer>, target: seq<Byte>) {
    forall i, j :: 0 <= i < j < |s| ==> Score(s[j], target) <= Score(s[i], target)
  }

  /** Inserts `p` before the first peer whose score is not larger, so equal scores keep their order. */
  function InsertByScore(p: Peer, s: seq<Peer>, target: seq<Byte>): (r: seq<Peer>)
    requires SortedByScore(s, target)
    ensures multiset(r) == multiset{p} + multiset(s)
    ensures SortedByScore(r, target)
  {
    if s == [] || Score(s[0], target) <= Score(p, target) then
      SortedCons(p, s, target);
      [p] + s
    else
      var rest := InsertByScore(p, s[1..], target);
      assert forall q :: q in rest ==> Score(q, target) <= Score(s[0], target) by {
        forall q | q in rest ensures Score(q, target) <= Score(s[0], target) {
          assert q in multiset(rest);
          if q != p {
            assert q in multiset(s[1..]);
            var j :| 0 <= j < |s[1..]| && s[1..][j] == q;
            assert s[j + 1] == q;
          }
        }
      }
      SortedCons(s[0], rest, target);
      assert s == [s[0]] + s[1..];
      [s[0]] + rest
  }

  lemma SortedCons(x: Peer, s: seq<Peer>, target: seq<Byte>)
    requires SortedByScore(s, target)
    requires forall q :: q in s ==> Score(q, target) <= Score(x, target)
    ensures SortedByScore([x] + s, target)
  {
    var r := [x] + s;
    forall i, j | 0 <= i < j < |r| ensures Score(r[j], target) <= Score(r[i], target) {
      if i == 0 {
        assert r[j] == s[j - 1];
      } else {
        assert r[i] == s[i - 1] && r[j] == s[j - 1];
      }
    }
  }

  /** `sort_by` with the comparison reversed: a stable sort by non-increasing score. */
  function SortByScore(s: seq<Peer>, target: seq<Byte>): (r: seq<Peer>)
    ensures multiset(r) == multiset(s)
    ensures SortedByScore(r, target)
  {
    if s == [] then []
    else
      assert s == [s[0]] + s[1..];
      InsertByScore(s[0], SortByScore(s[1..], target), target)
  }

  /** The FindPeers reply: the known peers sorted by descending score, then `take(10)`. */
  function NearestPeers(known: seq<Peer>, target: seq<Byte>): (r: seq<Peer>)
    ensures |r| == Min(|known|, MaxNearbyPeers)
    ensures multiset(r) <= multiset(known)
    ensures SortedByScore(r, target)
    ensures forall p, q :: p in r && q in known && q !in r ==> Score(q, target) <= Score(p, target)
  {
    var sorted := SortByScore(known, target);
    assert |sorted| == |multiset(sorted)| == |known|;
    var r := sorted[..Min(|known|, MaxNearbyPeers)];
    assert sorted == r + sorted[|r|..];
    assert forall q :: q in known ==> q in sorted by {
      forall q | q in known ensures q in sorted {
        assert q in multiset(known);
      }
    }
    r
  }

  /** Each element of `order` is distinct and `order` lists exactly the peers of `db`: a `HashSet` iteration. */
  ghost predicate Enumerates(order: seq<Peer>, db: set<Peer>) {
    && |order| == |db|
    && (forall i, j :: 0 <= i < j < |order| ==> order[i] != order[j])
    && (forall p :: p in order <==> p in db)
  }

  /** `peers_db.iter().collect()`: the peers of `db` in an unspecified order. */
  method Enumerate(db: set<Peer>) returns (order: seq<Peer>)
    ensures Enumerates(order, db)
  {
    order := [];
    var rest := db;
    while rest != {}
      invariant rest <= db
      invariant |order| + |rest| == |db|
      invariant forall i, j :: 0 <= i < j < |order| ==> order[i] != order[j]
      invariant forall p :: p in order <==> p in db && p !in rest
      decreases |rest|
    {
      var p :| p in rest;
      order := order + [p];
      rest := rest - {p};
    }
  }

  /**
   * Over the whole peer set: at most ten peers, all from the set, and no
   * peer left out has a strictly larger score than one sent.
   */
  lemma NearestPeersOfDb(db: set<Peer>, order: seq<Peer>, target: seq<Byte>)
    requires Enumerates(order, db)
    ensures |NearestPeers(order, target)| == Min(|db|, MaxNearbyPeers)
    ensures forall p :: p in NearestPeers(order, target) ==> p in db
    ensures forall p, q :: p in NearestPeers(order, target) && q in db && q !in NearestPeers(order, target) ==>
      Score(q, target) <= Score(p, target)
  {
    var r := NearestPeers(order, target);
    forall p | p in r ensures p in db {
      assert p in multiset(r);
    }
  }

  /** The Ping sent for one endpoint of a Peers message, if any. */
  function PingFor(ep: Endpoint, config: Config, parse: (string, int) -> Option<SocketAddr>): (out: seq<Reply>)
  {
    if IsLocalAddress(ep.address, config) then []
    else
      match parse(ep.address, ep.port)
      case None => []
      case Some(addr) => [SendPing(addr, Some(Endpoint(ep.address, ep.port, UnknownNodeId)), config.p2pVersion)]
  }

  /** The Pings sent for the endpoints of a Peers message, in message order. */
  function PingTargets(peers: seq<Endpoint>, config: Config, parse: (string, int) -> Option<SocketAddr>): (out: seq<Reply>)
  {
    if peers == [] then []
    else PingTargets(peers[..|peers| - 1], config, parse) + PingFor(peers[|peers| - 1], config, parse)
  }

  /**
   * An endpoint of a Peers message is pinged exactly when its address is
   * not local and parses; nothing else is sent.
   */
  lemma {:induction false} PingTargetsExact(peers: seq<Endpoint>, config: Config, parse: (string, int) -> Option<SocketAddr>)
    ensures |PingTargets(peers, config, parse)| <= |peers|
    ensures forall r :: r in PingTargets(peers, config, parse) ==>
      exists ep :: ep in peers && !IsLocalAddress(ep.address, config) && parse(ep.address, ep.port).Some? &&
        r == SendPing(parse(ep.address, ep.port).value, Some(Endpoint(ep.address, ep.port, UnknownNodeId)), config.p2pVersion)
    ensures forall ep :: ep in peers && !IsLocalAddress(ep.address, config) && parse(ep.address, ep.port).Some? ==>
      SendPing(parse(ep.address, ep.port).value, Some(Endpoint(ep.address, ep.port, UnknownNodeId)), config.p2pVersion)
        in PingTargets(peers, config, parse)
  {
    if peers != [] {
      var init := peers[..|peers| - 1];
      PingTargetsExact(init, config, parse);
      assert peers == init + [peers[|peers| - 1]];
    }
  }

  /** The loop over the endpoints of a Peers message, sending one Ping per accepted endpoint. */
  method PingPeers(peers: seq<Endpoint>, config: Config, parse: (string, int) -> Option<SocketAddr>) returns (sent: seq<Reply>)
    ensures sent == PingTargets(peers, config, parse)
  {
    sent := [];
    for i := 0 to |peers|
      invariant sent == PingTargets(peers[..i], config, parse)
    {
      assert peers[..i + 1][..i] == peers[..i];
      var ep := peers[i];
      if IsLocalAddress(ep.address, config) {
        continue;
      }
      var addr := parse(ep.address, ep.port);
      if addr.Some? {
        sent := sent + [SendPing(addr.value, Some(Endpoint(ep.address, ep.port, UnknownNodeId)), config.p2pVersion)];
      }
    }
    assert peers[..|peers|] == peers;
  }

  /** The peer recorded for a Pong from `sender` advertising `ep`. */
  function PeerOfPong(ep: Endpoint, echoVersion: int, sender: SocketAddr): Peer {
    Peer(ep.nodeId, echoVersion, ep.address, ep.port, sender.ip, sender.port)
  }

  /** How a message was handled: whether the peers file was rewritten, or the Pong `unwrap` panicked. */
  datatype Status = Handled | PeerAdded | PeerKnown | MissingPongEndpoint

  /** The state of the discovery loop: its configuration and the known-peer set. */
  class DiscoveryServer {
    const config: Config
    var peersDb: set<Peer>

    constructor (config: Config, peersDb: set<Peer>)
      ensures this.config == config && this.peersDb == peersDb
    {
      this.config := config;
      this.peersDb := peersDb;
    }

    /** Pong: insert the sender if absent; the peers file is rewritten only then. */
    method OnPong(from: Option<Endpoint>, echoVersion: int, sender: SocketAddr) returns (status: Status)
      modifies this
      ensures from.None? ==> status == MissingPongEndpoint && peersDb == old(peersDb)
      ensures from.Some? ==>
        var peer := PeerOfPong(from.value, echoVersion, sender);
        && peersDb == old(peersDb) + {peer}
        && (status == PeerAdded <==> peer !in old(peersDb))
        && (status == PeerKnown <==> peer in old(peersDb))
    {
      if from.None? {
        return MissingPongEndpoint;
      }
      var peer := PeerOfPong(from.value, echoVersion, sender);
      if peer !in peersDb {
        peersDb := peersDb + {peer};
        status := PeerAdded;
      } else {
        status := PeerKnown;
      }
    }

    /** One turn of the receive loop for a decoded message from `sender`. */
    method Handle(msg: Message, sender: SocketAddr, randomId: seq<Byte>, parse: (string, int) -> Option<SocketAddr>)
      returns (out: seq<Reply>, status: Status, ghost order: seq<Peer>)
      modifies this
      ensures !msg.Pong? ==> peersDb == old(peersDb) && status == Handled
      ensures msg.Ping? ==> out == PingReplies(msg.version, sender, config, randomId)
      ensures msg.FindPeers? ==>
        && Enumerates(order, peersDb)
        && out == [SendPeers(sender, NearestPeers(order, msg.targetId)), SendPing(sender, msg.findFrom, config.p2pVersion)]
      ensures msg.Peers? ==> out == PingTargets(msg.peers, config, parse)
      ensures msg.Pong? ==> out == []
      ensures msg.Pong? && msg.pongFrom.None? ==> status == MissingPongEndpoint && peersDb == old(peersDb)
      ensures msg.Pong? && msg.pongFrom.Some? ==>
        var peer := PeerOfPong(msg.pongFrom.value, msg.echoVersion, sender);
        peersDb == old(peersDb) + {peer} && (status == PeerAdded <==> peer !in old(peersDb))
    {
      out, status, order := [], Handled, [];
      match msg
      case Ping(_, _, version) =>
        out := PingReplies(version, sender, config, randomId);
      case FindPeers(from, target) =>
        var known := Enumerate(peersDb);
        order := known;
        out := [SendPeers(sender, NearestPeers(known, target)), SendPing(sender, from, config.p2pVersion)];
      case Peers(_, peers) =>
        out := PingPeers(peers, config, parse);
      case Pong(from, echoVersion) =>
        status := OnPong(from, echoVersion, sender);
    }
  }
}
