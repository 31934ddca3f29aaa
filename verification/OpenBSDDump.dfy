/**
 * What the OpenBSD kernel writes, field by field as its C structures lie in memory on amd64,
 * and that parsing it gives the device the kernel holds.
 */
module OpenBSDDump {
  import opened Wrappers
  import opened WgTypes
  import opened Layout
  import opened Records
  import opened OpenBSD

  // ----- what the kernel writes -----

  /** struct sockaddr_in or sockaddr_in6: length, family, port with its high byte first, address. */
  function Sockaddr(e: UDPAddr): seq<byte>
    requires 0 <= e.port <= 65535
  {
    match e.ip
    case IP4(a) => [16, 2, e.port / 256, e.port % 256] + a + Zeros(20)
    case IP6(a) => [28, 24, e.port / 256, e.port % 256] + Zeros(4) + a + Zeros(4)
  }

  /** struct wg_aip_io */
  function NetRecord(c: Cidr): seq<byte> {
    match c
    case Cidr4(a, n) => Join([[2], Zeros(3), PutUint(n, 4), a + Zeros(12)])
    case Cidr6(a, n) => Join([[24], Zeros(3), PutUint(n, 4), a])
  }

  function NetRecords(nets: seq<Cidr>): (r: seq<seq<byte>>)
    ensures |r| == |nets|
  {
    if nets == [] then [] else NetRecords(nets[..|nets| - 1]) + [NetRecord(nets[|nets| - 1])]
  }

  /** What a 64-bit kernel holds: ports and keepalives of 16 bits, counters that stay positive. */
  predicate PeerHeld(p: Peer) {
    && (p.endpoint.Some? ==> 0 <= p.endpoint.value.port <= 65535 && p.endpoint.value.zone == "")
    && 0 <= p.keepalive <= 65535 * SECOND && p.keepalive % SECOND == 0
    && (p.lastHandshake.Some? ==> 0 < p.lastHandshake.value.0 < 0x8000_0000_0000_0000
                                  && 0 < p.lastHandshake.value.1 < SECOND)
    && 0 <= p.receiveBytes < 0x8000_0000_0000_0000 && 0 <= p.transmitBytes < 0x8000_0000_0000_0000
    && 0 <= p.protocolVersion < 0x8000_0000 && |p.allowedIPs| < 0x1_0000_0000_0000_0000
  }

  function Handshake(p: Peer): (int, int) {
    p.lastHandshake.GetOr((0, 0))
  }

  function PeerFlagsOf(h: Dumped): nat {
    Bit(h.keyed, 1) + Bit(h.peer.hasPresharedKey, 2) + Bit(h.peer.hasKeepalive, 4) + Bit(h.peer.endpoint.Some?, 8)
  }

  /** struct wg_peer_io; what a flag does not announce is there all the same. */
  function PeerFieldsOf(h: Dumped): seq<seq<byte>>
    requires PeerHeld(h.peer)
  {
    var p := h.peer;
    [PutUint(PeerFlagsOf(h), 4), PutUint(p.protocolVersion, 4), p.publicKey, p.presharedKey,
     PutUint(p.keepalive / SECOND, 2), Zeros(2), if p.endpoint.Some? then Sockaddr(p.endpoint.value) else Zeros(28),
     PutUint(p.transmitBytes, 8), PutUint(p.receiveBytes, 8),
     PutUint(Handshake(p).0, 8), PutUint(Handshake(p).1, 8), PutUint(|p.allowedIPs|, 8)]
  }

  function GroupFor(h: Dumped): Group
    requires PeerHeld(h.peer)
  {
    Group(Join(PeerFieldsOf(h)), NetRecords(h.peer.allowedIPs))
  }

  predicate AllHeld(hs: seq<Dumped>) {
    forall i :: 0 <= i < |hs| ==> PeerHeld(hs[i].peer)
  }

  function GroupsFor(hs: seq<Dumped>): (r: seq<Group>)
    requires AllHeld(hs)
    ensures |r| == |hs|
  {
    if hs == [] then [] else GroupsFor(hs[..|hs| - 1]) + [GroupFor(hs[|hs| - 1])]
  }

  predicate HeaderHeld(d: Device) {
    0 <= d.listenPort <= 65535 && 0 <= d.firewallMark < 0x8000_0000
  }

  /** struct wg_interface_io: the mark is the routing table. */
  function HeaderFieldsOf(d: Device, count: nat): seq<seq<byte>>
    requires HeaderHeld(d)
  {
    [[HeaderFlags(d)], Zeros(1), PutUint(d.listenPort, 2), PutUint(d.firewallMark, 4), d.publicKey, d.privateKey,
     PutUint(count, 8)]
  }

  function HeaderFlags(d: Device): (r: nat)
    ensures r < 16
  {
    Bit(d.hasPublicKey, 1) + Bit(d.hasPrivateKey, 2) + Bit(d.hasListenPort, 4) + Bit(d.hasFirewallMark, 8)
  }

  // ----- what the parser should say -----

  /** What is not announced is not reported. */
  function Told(h: Dumped): ParsedPeer {
    var p := h.peer;
    ParsedPeer(
      Peer(None, if h.keyed then p.publicKey else ZeroKey(), if p.hasPresharedKey then p.presharedKey else ZeroKey(),
           p.hasPresharedKey, p.endpoint, if p.hasKeepalive then p.keepalive else 0, p.hasKeepalive, p.lastHandshake,
           p.receiveBytes, p.transmitBytes, [], p.protocolVersion),
      p.endpoint.Some?, Intact(p.allowedIPs))
  }

  function ToldHeader(d: Device): Device {
    Device(d.name, if d.hasPrivateKey then d.privateKey else ZeroKey(), d.hasPrivateKey,
           if d.hasPublicKey then d.publicKey else ZeroKey(), d.hasPublicKey,
           if d.hasListenPort then d.listenPort else 0, d.hasListenPort,
           if d.hasFirewallMark then d.firewallMark else 0, d.hasFirewallMark, [])
  }

  // ----- records -----

  lemma {:induction false} Positive(n: nat, k: nat)
    requires k == 4 || k == 8
    requires 2 * n < Pow256(k)
    ensures Int(PutUint(n, k)) == n && Uint(PutUint(n, k)) == n
  {
    UintOfPut(n, k);
  }

  lemma {:induction false} NetOffsets(f: seq<seq<byte>>)
    requires |f| == 4 && |f[0]| == 1 && |f[1]| == 3 && |f[2]| == 4 && |f[3]| == 16
    ensures Before(f, 1) == 1 && Before(f, 2) == 4 && Before(f, 3) == 8 && |Join(f)| == 24
  {
    RecordLength(f);
  }

  lemma {:induction false} NetToldOf(f: seq<seq<byte>>, family: byte, n: nat, address: seq<byte>)
    requires |address| == 16 && n <= 128 && f == [[family], Zeros(3), PutUint(n, 4), address]
    ensures var r := Join(f);
            |r| == 24 && r[0] == family && Int(r[4..8]) == n && r[8..24] == address && r[8..12] == address[0..4]
  {
    NetOffsets(f);
    Powers();
    Positive(n, 4);
    ReadField(f, 0, 0);
    ReadField(f, 2, 4);
    ReadField(f, 3, 8);
    var r := Join(f);
    assert r[0..1] == [family];
    assert r[8..24][0..4] == r[8..12];
  }

  /** A network record is read as the network. */
  lemma {:induction false} NetTold(c: Cidr)
    ensures |NetRecord(c)| == SIZE.net && KnownFamily(NetRecord(c)) && NetValue(NetRecord(c)) == Network(c)
  {
    hide Int;
    match c
    case Cidr4(a, n) =>
      NetToldOf([[2], Zeros(3), PutUint(n, 4), a + Zeros(12)], 2, n, a + Zeros(12));
      assert (a + Zeros(12))[0..4] == a;
    case Cidr6(a, n) =>
      NetToldOf([[24], Zeros(3), PutUint(n, 4), a], 24, n, a);
  }

  lemma {:induction false} NetRecordsAt(nets: seq<Cidr>, j: nat)
    requires j < |nets|
    ensures NetRecords(nets)[j] == NetRecord(nets[j])
  {
    if j == |nets| - 1 {
    } else {
      NetRecordsAt(nets[..|nets| - 1], j);
    }
  }

  lemma {:induction false} NetsTold(nets: seq<Cidr>)
    ensures forall j :: 0 <= j < |nets| ==> |NetRecords(nets)[j]| == SIZE.net
    ensures NetValues(NetRecords(nets)) == Some(Intact(nets))
  {
    hide NetRecord, NetValue, KnownFamily, NetValues, NetRecords;
    var rs := NetRecords(nets);
    forall j | 0 <= j < |nets|
      ensures |rs[j]| == SIZE.net && KnownFamily(rs[j]) && NetValue(rs[j]) == Network(nets[j])
    {
      NetRecordsAt(nets, j);
      NetTold(nets[j]);
    }
    NetValuesExactly(rs);
    assert NetValues(rs).value == Intact(nets);
  }

  lemma {:induction false} EndpointTold(e: UDPAddr)
    requires 0 <= e.port <= 65535 && e.zone == ""
    ensures |Sockaddr(e)| == 28 && EndpointValue(Sockaddr(e)) == Some(e)
  {
    var b := Sockaddr(e);
    match e.ip
    case IP4(a) => assert b[4..8] == a;
    case IP6(a) => assert b[8..24] == a;
  }

  lemma {:induction false} PeerOffsets(f: seq<seq<byte>>)
    requires |f| == 12 && |f[0]| == 4 && |f[1]| == 4 && |f[2]| == 32 && |f[3]| == 32 && |f[4]| == 2 && |f[5]| == 2
    requires |f[6]| == 28 && |f[7]| == 8 && |f[8]| == 8 && |f[9]| == 8 && |f[10]| == 8 && |f[11]| == 8
    ensures Before(f, 0) == 0 && Before(f, 1) == 4 && Before(f, 2) == 8 && Before(f, 3) == 40 && Before(f, 4) == 72
    ensures Before(f, 5) == 74 && Before(f, 6) == 76 && Before(f, 7) == 104 && Before(f, 8) == 112
    ensures Before(f, 9) == 120 && Before(f, 10) == 128 && Before(f, 11) == 136 && |Join(f)| == 144
  {
    assert Before(f, 1) == 4;
    assert Before(f, 2) == 8;
    assert Before(f, 3) == 40;
    assert Before(f, 4) == 72;
    assert Before(f, 5) == 74;
    assert Before(f, 6) == 76;
    assert Before(f, 7) == 104;
    assert Before(f, 8) == 112;
    assert Before(f, 9) == 120;
    assert Before(f, 10) == 128;
    RecordLength(f);
  }

  lemma {:induction false} PeerParts(h: Dumped)
    requires PeerHeld(h.peer)
    ensures var f, p := PeerFieldsOf(h), h.peer;
            && |f| == 12 && |f[0]| == 4 && |f[1]| == 4 && |f[2]| == 32 && |f[3]| == 32 && |f[4]| == 2 && |f[5]| == 2
            && |f[6]| == 28 && |f[7]| == 8 && |f[8]| == 8 && |f[9]| == 8 && |f[10]| == 8 && |f[11]| == 8
            && f[0] == PutUint(PeerFlagsOf(h), 4) && f[1] == PutUint(p.protocolVersion, 4)
            && f[2] == p.publicKey && f[3] == p.presharedKey && f[4] == PutUint(p.keepalive / SECOND, 2)
            && (p.endpoint.Some? ==> f[6] == Sockaddr(p.endpoint.value))
            && f[7] == PutUint(p.transmitBytes, 8) && f[8] == PutUint(p.receiveBytes, 8)
            && f[9] == PutUint(Handshake(p).0, 8) && f[10] == PutUint(Handshake(p).1, 8)
            && f[11] == PutUint(|p.allowedIPs|, 8)
  {
    hide Sockaddr;
    if h.peer.endpoint.Some? {
      EndpointTold(h.peer.endpoint.value);
    }
  }

  /** The bytes of a peer record at the offsets of the parser. */
  lemma {:induction false} PeerBytes(h: Dumped)
    requires PeerHeld(h.peer)
    ensures var r, p := Join(PeerFieldsOf(h)), h.peer;
            && |r| == 144
            && Uint(r[0..4]) == PeerFlagsOf(h) && Int(r[4..8]) == p.protocolVersion
            && Uint(r[72..74]) == p.keepalive / SECOND
  {
    hide Int, Uint, Join, Before, Sockaddr, PeerFieldsOf, PeerFlagsOf, PutUint;
    var f := PeerFieldsOf(h);
    PeerParts(h);
    PeerOffsets(f);
    Powers();
    SmallFlags(h);
    ReadNumber(f, 0, 0, PeerFlagsOf(h), 4);
    Positive(h.peer.protocolVersion, 4);
    ReadField(f, 1, 4);
    ReadNumber(f, 4, 72, h.peer.keepalive / SECOND, 2);
  }

  lemma {:induction false} PeerKeysAt(h: Dumped)
    requires PeerHeld(h.peer)
    ensures var r, p := Join(PeerFieldsOf(h)), h.peer;
            && |r| == 144
            && r[8..40] == p.publicKey && r[40..72] == p.presharedKey
            && (p.endpoint.Some? ==> r[76..104] == Sockaddr(p.endpoint.value))
  {
    hide Join, Before, Sockaddr, PeerFieldsOf, PeerFlagsOf, PutUint;
    var f := PeerFieldsOf(h);
    PeerParts(h);
    PeerOffsets(f);
    ReadField(f, 2, 8);
    ReadField(f, 3, 40);
    ReadField(f, 6, 76);
  }

  lemma {:induction false} SmallFlags(h: Dumped)
    ensures PeerFlagsOf(h) < 16
  {
  }

  lemma {:induction false} PeerCounters(h: Dumped)
    requires PeerHeld(h.peer)
    ensures var r, p := Join(PeerFieldsOf(h)), h.peer;
            && |r| == 144
            && Int(r[104..112]) == p.transmitBytes && Int(r[112..120]) == p.receiveBytes
            && Int(r[120..128]) == Handshake(p).0 && Int(r[128..136]) == Handshake(p).1
            && Uint(r[136..144]) == |p.allowedIPs|
  {
    hide Int, Uint, Join, Before, Sockaddr, PeerFieldsOf, PeerFlagsOf, PutUint;
    var f, p := PeerFieldsOf(h), h.peer;
    PeerParts(h);
    PeerOffsets(f);
    Powers();
    Positive(p.transmitBytes, 8);
    Positive(p.receiveBytes, 8);
    Positive(Handshake(p).0, 8);
    Positive(Handshake(p).1, 8);
    ReadField(f, 7, 104);
    ReadField(f, 8, 112);
    ReadField(f, 9, 120);
    ReadField(f, 10, 128);
    ReadNumber(f, 11, 136, |p.allowedIPs|, 8);
  }

  lemma {:induction false} PeerTold(h: Dumped)
    requires PeerHeld(h.peer)
    ensures ValidGroup(GroupFor(h)) && GroupValue(GroupFor(h)) == Some(Told(h))
  {
    hide Int, Uint, Join, Sockaddr, EndpointValue, NetRecords, NetValues, PeerFieldsOf, Intact, Has;
    PeerBytes(h);
    PeerKeysAt(h);
    PeerCounters(h);
    NetsTold(h.peer.allowedIPs);
    FlagsTold(h);
    if h.peer.endpoint.Some? {
      EndpointTold(h.peer.endpoint.value);
    }
    SecondsTold(h.peer.keepalive);
    TimeTold(h.peer);
  }

  lemma {:induction false} FlagsTold(h: Dumped)
    ensures var f := PeerFlagsOf(h);
            && Has(f, PEER_HAS_PUBLIC) == h.keyed && Has(f, PEER_HAS_PSK) == h.peer.hasPresharedKey
            && Has(f, PEER_HAS_PKA) == h.peer.hasKeepalive && Has(f, PEER_HAS_ENDPOINT) == h.peer.endpoint.Some?
  {
    FiveDigits(Bit(h.keyed, 1), Bit(h.peer.hasPresharedKey, 1), Bit(h.peer.hasKeepalive, 1),
               Bit(h.peer.endpoint.Some?, 1), 0, PeerFlagsOf(h));
  }

  lemma {:induction false} SecondsTold(d: int)
    requires d % SECOND == 0
    ensures d / SECOND * SECOND == d
  {
  }

  lemma {:induction false} TimeTold(p: Peer)
    requires PeerHeld(p)
    ensures var (sec, nsec) := Handshake(p);
            (if sec > 0 && nsec > 0 then Some(UnixTime(sec, nsec)) else None) == p.lastHandshake
  {
  }

  // ----- the dump -----

  lemma {:induction false} HeaderOffsets(f: seq<seq<byte>>)
    requires |f| == 7 && |f[0]| == 1 && |f[1]| == 1 && |f[2]| == 2 && |f[3]| == 4 && |f[4]| == 32 && |f[5]| == 32
    requires |f[6]| == 8
    ensures Before(f, 0) == 0 && Before(f, 1) == 1 && Before(f, 2) == 2 && Before(f, 3) == 4 && Before(f, 4) == 8
    ensures Before(f, 5) == 40 && Before(f, 6) == 72 && |Join(f)| == 80
  {
    assert Before(f, 1) == 1;
    assert Before(f, 2) == 2;
    assert Before(f, 3) == 4;
    assert Before(f, 4) == 8;
    assert Before(f, 5) == 40;
    RecordLength(f);
  }

  lemma {:induction false} HeaderParts(d: Device, count: nat)
    requires HeaderHeld(d)
    ensures var f := HeaderFieldsOf(d, count);
            && |f| == 7 && |f[0]| == 1 && |f[1]| == 1 && |f[2]| == 2 && |f[3]| == 4 && |f[4]| == 32 && |f[5]| == 32
            && |f[6]| == 8
            && f[0] == [HeaderFlags(d)] && f[2] == PutUint(d.listenPort, 2) && f[3] == PutUint(d.firewallMark, 4)
            && f[4] == d.publicKey && f[5] == d.privateKey && f[6] == PutUint(count, 8)
  {
    hide HeaderFlags;
  }

  lemma {:induction false} HeaderTold(d: Device, count: nat)
    requires HeaderHeld(d) && count < 0x1_0000_0000_0000_0000
    ensures var r := Join(HeaderFieldsOf(d, count));
            |r| == SIZE.interface_ && PeerCount(r) == count && HeaderValue(d.name, r) == ToldHeader(d)
  {
    hide Int, Uint, Join, Before, Has, HeaderFieldsOf, HeaderFlags;
    var f := HeaderFieldsOf(d, count);
    HeaderParts(d, count);
    HeaderOffsets(f);
    Powers();
    ReadField(f, 0, 0);
    ReadNumber(f, 2, 2, d.listenPort, 2);
    Positive(d.firewallMark, 4);
    ReadField(f, 3, 4);
    ReadField(f, 4, 8);
    ReadField(f, 5, 40);
    ReadNumber(f, 6, 72, count, 8);
    HeaderFlagsTold(d);
    assert Join(f)[0..1] == [HeaderFlags(d)];
  }

  lemma {:induction false} HeaderFlagsTold(d: Device)
    ensures var f := HeaderFlags(d);
            && Has(f, INTERFACE_HAS_PUBLIC) == d.hasPublicKey && Has(f, INTERFACE_HAS_PRIVATE) == d.hasPrivateKey
            && Has(f, INTERFACE_HAS_PORT) == d.hasListenPort && Has(f, INTERFACE_HAS_RTABLE) == d.hasFirewallMark
  {
    FiveDigits(Bit(d.hasPublicKey, 1), Bit(d.hasPrivateKey, 1), Bit(d.hasListenPort, 1), Bit(d.hasFirewallMark, 1),
               0, HeaderFlags(d));
  }

  lemma {:induction false} GroupsForAt(hs: seq<Dumped>, i: nat)
    requires AllHeld(hs) && i < |hs|
    ensures GroupsFor(hs)[i] == GroupFor(hs[i])
  {
    hide GroupFor;
    if i == |hs| - 1 {
    } else {
      GroupsForAt(hs[..|hs| - 1], i);
    }
  }

  function Dump(d: Device, hs: seq<Dumped>): seq<byte>
    requires HeaderHeld(d) && AllHeld(hs)
  {
    Bytes(Join(HeaderFieldsOf(d, |hs|)), GroupsFor(hs))
  }

  ghost predicate AllTold(peers: seq<ParsedPeer>, hs: seq<Dumped>) {
    |peers| == |hs| && forall i :: 0 <= i < |hs| ==> peers[i] == Told(hs[i])
  }

  /** Every dump the kernel writes is read, as the device and the peers the kernel holds. */
  lemma {:induction false} DumpTold(d: Device, hs: seq<Dumped>)
    requires HeaderHeld(d) && AllHeld(hs) && |hs| < 0x1_0000_0000_0000_0000
    ensures ValidDump(Join(HeaderFieldsOf(d, |hs|)), GroupsFor(hs))
    ensures PeersOfGroups(GroupsFor(hs)).Some? && AllTold(PeersOfGroups(GroupsFor(hs)).value, hs)
  {
    hide GroupFor, Told, GroupValue, ValidGroup, PeersOfGroups, HeaderFieldsOf, PeerHeld, PeerCount;
    HeaderTold(d, |hs|);
    var gs := GroupsFor(hs);
    forall i | 0 <= i < |hs|
      ensures ValidGroup(gs[i]) && GroupValue(gs[i]) == Some(Told(hs[i]))
    {
      GroupsForAt(hs, i);
      PeerTold(hs[i]);
    }
    GroupsTold(gs, hs, |gs|);
  }

  lemma {:induction false} GroupsTold(gs: seq<Group>, hs: seq<Dumped>, n: nat)
    requires n <= |gs| == |hs|
    requires forall i :: 0 <= i < |hs| ==> ValidGroup(gs[i]) && GroupValue(gs[i]) == Some(Told(hs[i]))
    ensures PeersOfGroups(gs[..n]).Some? && AllTold(PeersOfGroups(gs[..n]).value, hs[..n])
    ensures n == |gs| ==> PeersOfGroups(gs).Some? && AllTold(PeersOfGroups(gs).value, hs)
  {
    hide ValidGroup, GroupValue, Told;
    if n == 0 {
    } else {
      GroupsTold(gs, hs, n - 1);
      assert gs[..n][..n - 1] == gs[..n - 1];
      if n == |gs| {
        assert gs[..n] == gs && hs[..n] == hs;
      }
    }
  }

  /** The kernel writes a device, and the parser reads it. */
  method DumpThenParse(d: Device, hs: seq<Dumped>) returns (r: Option<ParsedDevice>)
    requires HeaderHeld(d) && AllHeld(hs) && |hs| < 0x1_0000_0000_0000_0000
    ensures r.Some? && r.value.header == ToldHeader(d) && AllTold(r.value.peers, hs)
  {
    hide HeaderValue, ToldHeader, ValidGroup, PeersOfGroups, HeaderFieldsOf, AllTold;
    DumpTold(d, hs);
    HeaderTold(d, |hs|);
    r := ParseDevice(d.name, Dump(d, hs), Join(HeaderFieldsOf(d, |hs|)), GroupsFor(hs));
  }
}
