/**
 * What the Windows driver writes when it is asked for its configuration, field by field, and
 * that parsing it gives the device the driver holds.
 */
module WindowsDump {
  import opened Wrappers
  import opened WgTypes
  import opened Layout
  import opened Records
  import opened WindowsRecords
  import opened WindowsParse

  // ----- what the driver writes -----

  /** SOCKADDR_IN or SOCKADDR_IN6: family, port with its high byte first, address. */
  function Sockaddr(e: UDPAddr): seq<byte>
    requires 0 <= e.port <= 65535
  {
    match e.ip
    case IP4(a) => [2, 0, e.port / 256, e.port % 256] + a + Zeros(20)
    case IP6(a) => [23, 0, e.port / 256, e.port % 256] + Zeros(4) + a + Zeros(4)
  }

  /** Hundreds of nanoseconds since 1601, which is 11644473600 seconds before 1970; zero for never. */
  function FileTime(p: Peer): nat
    requires PeerHeld(p)
  {
    if p.lastHandshake.Some? then 11644473600 * 10000000 + p.lastHandshake.value.1 / 100 else 0
  }

  function NetFieldsOf(c: Cidr): seq<seq<byte>> {
    match c
    case Cidr4(a, n) => [a + Zeros(12), [2, 0], [n], Zeros(1), Zeros(4)]
    case Cidr6(a, n) => [a, [23, 0], [n], Zeros(1), Zeros(4)]
  }

  /** A time after 1970 in nanoseconds, which the driver counts in hundreds. */
  predicate TimeHeld(time: (int, int)) {
    time.0 == 0 && 0 <= time.1 < 0x8000_0000_0000_0000 && time.1 % 100 == 0
  }

  predicate PeerHeld(p: Peer) {
    && (p.endpoint.Some? ==> 0 <= p.endpoint.value.port <= 65535 && p.endpoint.value.zone == "")
    && 0 <= p.keepalive <= 65535 * SECOND && p.keepalive % SECOND == 0
    && (p.lastHandshake.Some? ==> TimeHeld(p.lastHandshake.value))
    && 0 <= p.receiveBytes < 0x8000_0000_0000_0000 && 0 <= p.transmitBytes < 0x8000_0000_0000_0000
    && 0 <= p.protocolVersion < 0x1_0000_0000 && |p.allowedIPs| < 0x1_0000_0000
  }

  function PeerFlagsOf(h: Dumped): nat {
    Bit(h.keyed, 1) + Bit(h.peer.hasPresharedKey, 2) + Bit(h.peer.hasKeepalive, 4) + Bit(h.peer.endpoint.Some?, 8)
    + Bit(h.peer.protocolVersion != 0, 16)
  }

  /** What a flag does not announce is there all the same. */
  function PeerFieldsOf(h: Dumped): seq<seq<byte>>
    requires PeerHeld(h.peer)
  {
    var p := h.peer;
    [PutUint(PeerFlagsOf(h), 4), PutUint(p.protocolVersion, 4), p.publicKey, p.presharedKey,
     PutUint(p.keepalive / SECOND, 2), Zeros(2), if p.endpoint.Some? then Sockaddr(p.endpoint.value) else Zeros(28),
     PutUint(p.transmitBytes, 8), PutUint(p.receiveBytes, 8), PutUint(FileTime(p), 8),
     PutUint(|p.allowedIPs|, 4), Zeros(4)]
  }

  predicate AllHeld(hs: seq<Dumped>) {
    forall i :: 0 <= i < |hs| ==> PeerHeld(hs[i].peer)
  }

  function HeaderFlags(d: Device): (r: nat)
    ensures r < 8
  {
    Bit(d.hasPublicKey, 1) + Bit(d.hasPrivateKey, 2) + Bit(d.hasListenPort, 4)
  }

  predicate HeaderHeld(d: Device) {
    0 <= d.listenPort <= 65535
  }

  function HeaderFieldsOf(d: Device, count: nat): seq<seq<byte>>
    requires HeaderHeld(d)
  {
    [PutUint(HeaderFlags(d), 4), PutUint(d.listenPort, 2), d.privateKey, d.publicKey, Zeros(2), PutUint(count, 4),
     Zeros(4)]
  }

  /** All networks of a peer, one record behind the other. */
  function NetsDump(nets: seq<Cidr>): seq<byte> {
    if nets == [] then [] else NetsDump(nets[..|nets| - 1]) + Join(NetFieldsOf(nets[|nets| - 1]))
  }

  function PeersDump(hs: seq<Dumped>): seq<byte>
    requires AllHeld(hs)
  {
    if hs == [] then []
    else
      var h := hs[|hs| - 1];
      PeersDump(hs[..|hs| - 1]) + (Join(PeerFieldsOf(h)) + NetsDump(h.peer.allowedIPs))
  }

  function Dump(d: Device, hs: seq<Dumped>): seq<byte>
    requires HeaderHeld(d) && AllHeld(hs)
  {
    Join(HeaderFieldsOf(d, |hs|)) + PeersDump(hs)
  }

  // ----- what the parser should say -----

  /** What is not announced is not reported. */
  function Told(h: Dumped): ParsedPeer {
    var p := h.peer;
    ParsedPeer(
      Peer(None, if h.keyed then p.publicKey else ZeroKey(), if p.hasPresharedKey then p.presharedKey else ZeroKey(),
           p.hasPresharedKey, p.endpoint, if p.hasKeepalive then p.keepalive else 0, p.hasKeepalive, p.lastHandshake,
           p.receiveBytes, p.transmitBytes, [], p.protocolVersion),
      p.endpoint.Some?, Intact(p.allowedIPs))
  }

  /** The driver has no mark. */
  function ToldHeader(d: Device): Device {
    Device(d.name, if d.hasPrivateKey then d.privateKey else ZeroKey(), d.hasPrivateKey,
           if d.hasPublicKey then d.publicKey else ZeroKey(), d.hasPublicKey,
           if d.hasListenPort then d.listenPort else 0, d.hasListenPort, 0, false, [])
  }

  // ----- records -----

  function NetFor(c: Cidr): NetRecord {
    match c
    case Cidr4(a, n) => NetRecord(a + Zeros(12), AF_INET, n, Zeros(1), 0)
    case Cidr6(a, n) => NetRecord(a, AF_INET6, n, Zeros(1), 0)
  }

  function NetsFor(nets: seq<Cidr>): (r: seq<NetRecord>)
    ensures |r| == |nets|
  {
    if nets == [] then [] else NetsFor(nets[..|nets| - 1]) + [NetFor(nets[|nets| - 1])]
  }

  function RecordFor(h: Dumped): PeerRecord
    requires PeerHeld(h.peer)
  {
    var p := h.peer;
    if p.endpoint.Some? then
      SockaddrLength(p.endpoint.value);
      RecordWith(h, Sockaddr(p.endpoint.value))
    else RecordWith(h, Zeros(28))
  }

  function RecordWith(h: Dumped, endpoint: Bytes28): PeerRecord
    requires PeerHeld(h.peer)
  {
    var p := h.peer;
    PeerRecord(PeerFlagsOf(h), p.protocolVersion, p.publicKey, p.presharedKey, p.keepalive / SECOND, Zeros(2), endpoint,
               p.transmitBytes, p.receiveBytes, FileTime(p), |p.allowedIPs|, Zeros(4))
  }

  function InterfaceFor(d: Device, count: nat): Interface
    requires HeaderHeld(d)
  {
    Interface(HeaderFlags(d), d.listenPort, d.privateKey, d.publicKey, Zeros(2), count, Zeros(4))
  }

  function GroupFor(h: Dumped): PeerGroup
    requires PeerHeld(h.peer)
  {
    PeerGroup(RecordFor(h), NetsFor(h.peer.allowedIPs))
  }

  function GroupsFor(hs: seq<Dumped>): (r: seq<PeerGroup>)
    requires AllHeld(hs)
    ensures |r| == |hs|
  {
    if hs == [] then [] else GroupsFor(hs[..|hs| - 1]) + [GroupFor(hs[|hs| - 1])]
  }

  lemma {:induction false} SockaddrLength(e: UDPAddr)
    requires 0 <= e.port <= 65535
    ensures |Sockaddr(e)| == 28
  {
  }

  lemma {:induction false} Family(n: nat)
    requires n < 256
    ensures PutUint(n, 2) == [n, 0] && PutUint(n, 1) == [n] && PutUint(0, 4) == Zeros(4)
  {
    assert PutUint(0, 1) == [0] && PutUint(0, 2) == [0, 0] && PutUint(0, 3) == [0, 0, 0];
  }

  lemma {:induction false} NetBytesAre(c: Cidr)
    ensures NetBytes(NetFor(c)) == Join(NetFieldsOf(c))
  {
    hide PutUint, Join;
    Family(2);
    Family(23);
    Family(CidrOnes(c));
  }

  lemma {:induction false} NetsBytesAre(nets: seq<Cidr>)
    ensures Join(NetsBytes(NetsFor(nets))) == NetsDump(nets)
  {
    hide NetBytes, NetFieldsOf, NetFor;
    if nets == [] {
    } else {
      var init, rs := nets[..|nets| - 1], NetsFor(nets);
      NetsBytesAre(init);
      NetBytesAre(nets[|nets| - 1]);
      assert rs[..|rs| - 1] == NetsFor(init);
      assert NetsBytes(rs)[..|rs| - 1] == NetsBytes(NetsFor(init));
    }
  }

  lemma {:induction false} PeerBytesAre(h: Dumped)
    requires PeerHeld(h.peer)
    ensures PeerFields(RecordFor(h)) == PeerFieldsOf(h)
  {
    hide PutUint, Sockaddr, FileTime, PeerFlagsOf;
  }

  lemma {:induction false} PeersBytesAre(hs: seq<Dumped>)
    requires AllHeld(hs)
    ensures GroupsBytes(RawGroups(GroupsFor(hs))) == PeersDump(hs)
  {
    hide RecordFor, PeerFields, PeerFieldsOf, NetsDump, PeerHeld;
    if hs == [] {
    } else {
      var init, h, gs := hs[..|hs| - 1], hs[|hs| - 1], GroupsFor(hs);
      PeersBytesAre(init);
      PeerBytesAre(h);
      NetsBytesAre(h.peer.allowedIPs);
      assert gs[..|gs| - 1] == GroupsFor(init);
      assert RawGroups(gs)[..|gs| - 1] == RawGroups(GroupsFor(init));
    }
  }

  /** The driver's bytes are those of the records. */
  lemma {:induction false} DumpIsBuffer(d: Device, hs: seq<Dumped>)
    requires HeaderHeld(d) && AllHeld(hs)
    ensures Dump(d, hs) == BufferOf(InterfaceFor(d, |hs|), GroupsFor(hs))
  {
    hide PutUint, PeersDump, RawGroups, AllHeld;
    PeersBytesAre(hs);
  }

  // ----- values -----

  lemma {:induction false} NetTold(c: Cidr)
    ensures NetInRange(NetFor(c)) && NetValue(NetFor(c)) == Network(c)
  {
    match c
    case Cidr4(a, n) => assert (a + Zeros(12))[..4] == a;
    case Cidr6(_, _) =>
  }

  lemma {:induction false} NetsForAt(nets: seq<Cidr>, j: nat)
    requires j < |nets|
    ensures NetsFor(nets)[j] == NetFor(nets[j])
  {
    if j == |nets| - 1 {
    } else {
      NetsForAt(nets[..|nets| - 1], j);
    }
  }

  lemma {:induction false} NetsTold(nets: seq<Cidr>)
    ensures ValidNets(NetsFor(nets)) && NetValues(NetsFor(nets)) == Intact(nets)
  {
    hide NetFor, NetValue, NetInRange, NetsFor;
    forall j | 0 <= j < |nets|
      ensures NetInRange(NetsFor(nets)[j]) && NetValue(NetsFor(nets)[j]) == Network(nets[j])
    {
      NetsForAt(nets, j);
      NetTold(nets[j]);
    }
  }

  lemma {:induction false} EndpointTold(e: UDPAddr)
    requires 0 <= e.port <= 65535 && e.zone == ""
    ensures |Sockaddr(e)| == 28 && EndpointValue(Sockaddr(e)) == Some(e)
  {
    var b := Sockaddr(e);
    Family(2);
    Family(23);
    Powers();
    UintOfPut(2, 2);
    UintOfPut(23, 2);
    match e.ip
    case IP4(a) => assert b[0..2] == [2, 0] && b[4..8] == a;
    case IP6(a) => assert b[0..2] == [23, 0] && b[8..24] == a;
  }

  /** A time counted from 1601 is read as nanoseconds since 1970. */
  lemma {:induction false} TimeTold(p: Peer)
    requires PeerHeld(p)
    ensures FileTime(p) < 0x1_0000_0000_0000_0000
    ensures (if FileTime(p) != 0 then Some((0, HandshakeNanoseconds(FileTime(p)))) else None) == p.lastHandshake
  {
  }

  lemma {:induction false} FlagsTold(h: Dumped)
    ensures var f := PeerFlagsOf(h);
            && f < 32 && Has(f, 1) == h.keyed && Has(f, 2) == h.peer.hasPresharedKey && Has(f, 4) == h.peer.hasKeepalive
            && Has(f, 8) == h.peer.endpoint.Some? && Has(f, 16) == (h.peer.protocolVersion != 0)
  {
    FiveDigits(Bit(h.keyed, 1), Bit(h.peer.hasPresharedKey, 1), Bit(h.peer.hasKeepalive, 1),
               Bit(h.peer.endpoint.Some?, 1), Bit(h.peer.protocolVersion != 0, 1), PeerFlagsOf(h));
  }

  lemma {:induction false} PeerTold(h: Dumped)
    requires PeerHeld(h.peer)
    ensures ValidGroup(GroupFor(h)) && GroupValue(GroupFor(h)) == Told(h)
  {
    hide Has, PeerFlagsOf, Sockaddr, EndpointValue, NetsFor, NetValues, ValidNets, Intact, FileTime,
      HandshakeNanoseconds;
    FlagsTold(h);
    NetsTold(h.peer.allowedIPs);
    TimeTold(h.peer);
    if h.peer.endpoint.Some? {
      EndpointTold(h.peer.endpoint.value);
    }
  }

  lemma {:induction false} HeaderTold(d: Device, count: nat)
    requires HeaderHeld(d) && count < 0x1_0000_0000
    ensures InterfaceInRange(InterfaceFor(d, count)) && Header(d.name, InterfaceFor(d, count)) == ToldHeader(d)
  {
    FiveDigits(Bit(d.hasPublicKey, 1), Bit(d.hasPrivateKey, 1), Bit(d.hasListenPort, 1), 0, 0, HeaderFlags(d));
  }

  lemma {:induction false} GroupsForAt(hs: seq<Dumped>, i: nat)
    requires AllHeld(hs) && i < |hs|
    ensures GroupsFor(hs)[i] == GroupFor(hs[i])
  {
    hide GroupFor, PeerHeld;
    if i == |hs| - 1 {
    } else {
      GroupsForAt(hs[..|hs| - 1], i);
    }
  }

  ghost predicate AllTold(peers: seq<ParsedPeer>, hs: seq<Dumped>) {
    |peers| == |hs| && forall i :: 0 <= i < |hs| ==> peers[i] == Told(hs[i])
  }

  /** Every dump the driver writes consists of valid records with the values the driver holds. */
  lemma {:induction false} DumpTold(d: Device, hs: seq<Dumped>)
    requires HeaderHeld(d) && AllHeld(hs) && |hs| < 0x1_0000_0000
    ensures ValidRecords(InterfaceFor(d, |hs|), GroupsFor(hs))
    ensures AllTold(ParsedPeers(GroupsFor(hs), |hs|), hs)
  {
    hide GroupFor, Told, GroupValue, ValidGroup, PeerHeld, GroupsFor, InterfaceInRange;
    HeaderTold(d, |hs|);
    var gs := GroupsFor(hs);
    forall i | 0 <= i < |hs|
      ensures ValidGroup(gs[i]) && GroupValue(gs[i]) == Told(hs[i])
    {
      GroupsForAt(hs, i);
      PeerTold(hs[i]);
    }
    forall i | 0 <= i < |hs|
      ensures ParsedPeers(gs, |hs|)[i] == Told(hs[i])
    {
      ParsedPeersAt(gs, |hs|, i);
    }
  }

  /** The driver writes a device, and the parser reads it. */
  method DumpThenParse(d: Device, hs: seq<Dumped>) returns (device: ParsedDevice)
    requires HeaderHeld(d) && AllHeld(hs) && |hs| < 0x1_0000_0000
    ensures device.header == ToldHeader(d) && AllTold(device.peers, hs)
  {
    hide Header, ToldHeader, ValidRecords, GroupsFor, AllTold, Dump, BufferOf, InterfaceFor, PeerHeld;
    DumpTold(d, hs);
    HeaderTold(d, |hs|);
    DumpIsBuffer(d, hs);
    device := ParseConfiguration(d.name, Dump(d, hs), InterfaceFor(d, |hs|), GroupsFor(hs));
  }
}
