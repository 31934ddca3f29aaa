/**
 * Walking the driver's buffer, and its round trip: the parser finds in the buffer the
 * builder made exactly what the configuration says.
 */
module WindowsParse {
  import opened Wrappers
  import opened WgTypes
  import opened DeviceModel
  import opened Layout
  import opened Records
  import opened WindowsRecords
  import opened Windows

  // ----- what the records mean -----

  function NetValue(r: NetRecord): ParsedNet {
    if r.family == AF_INET then ParsedNet4(r.address[..4], r.cidr)
    else if r.family == AF_INET6 then ParsedNet6(r.address, r.cidr)
    else NoMask([])
  }

  ghost predicate ValidNets(rs: seq<NetRecord>) {
    forall j :: 0 <= j < |rs| ==> NetInRange(rs[j])
  }

  /** Records with the right counts. */
  ghost predicate ValidGroup(g: PeerGroup) {
    && PeerInRange(g.peer)
    && g.peer.allowedIPsCount == |g.nets|
    && ValidNets(g.nets)
  }

  ghost predicate ValidGroups(gs: seq<PeerGroup>) {
    forall i :: 0 <= i < |gs| ==> ValidGroup(gs[i])
  }

  ghost predicate ValidRecords(interface_: Interface, gs: seq<PeerGroup>) {
    InterfaceInRange(interface_) && interface_.peerCount == |gs| && ValidGroups(gs)
  }

  /** The driver counts in 100 ns since 1601, as an unsigned 64-bit number; time.Unix takes signed nanoseconds. */
  function HandshakeNanoseconds(t: int): int {
    var n := (t - 116444736000000000) * 100 % 0x1_0000_0000_0000_0000;
    if n < 0x8000_0000_0000_0000 then n else n - 0x1_0000_0000_0000_0000
  }

  /** An unknown family gives an endpoint without an address. */
  function EndpointValue(b: Bytes28): Option<UDPAddr> {
    match GetIP(b)
    case Some(ip) => Some(UDPAddr(ip, GetPort(b), ""))
    case None => None
  }

  function PeerValue(r: PeerRecord): Peer
  {
    Peer(
      None,
      if Has(r.flags, PEER_HAS_PUBLIC_KEY) then r.publicKey else ZeroKey(),
      if Has(r.flags, PEER_HAS_PRESHARED_KEY) then r.presharedKey else ZeroKey(),
      Has(r.flags, PEER_HAS_PRESHARED_KEY),
      if Has(r.flags, PEER_HAS_ENDPOINT) then EndpointValue(r.endpoint) else None,
      if Has(r.flags, PEER_HAS_PERSISTENT_KEEPALIVE) then r.keepalive * SECOND else 0,
      Has(r.flags, PEER_HAS_PERSISTENT_KEEPALIVE),
      if r.lastHandshake != 0 then Some((0, HandshakeNanoseconds(r.lastHandshake))) else None,
      Int64(r.rxBytes), Int64(r.txBytes), [],
      if Has(r.flags, PEER_HAS_PROTOCOL_VERSION) then r.protocolVersion else 0)
  }

  /** The networks of a peer, in order. */
  function NetValues(rs: seq<NetRecord>): (r: seq<ParsedNet>)
    ensures |r| == |rs|
  {
    seq(|rs|, j requires 0 <= j < |rs| => NetValue(rs[j]))
  }

  function GroupValue(g: PeerGroup): ParsedPeer
    requires ValidGroup(g)
  {
    ParsedPeer(PeerValue(g.peer), Has(g.peer.flags, PEER_HAS_ENDPOINT), NetValues(g.nets))
  }

  /** The first `n` peers of the buffer, in order. */
  function ParsedPeers(gs: seq<PeerGroup>, n: nat): (r: seq<ParsedPeer>)
    requires ValidGroups(gs) && n <= |gs|
    ensures |r| == n
  {
    if n == 0 then [] else ParsedPeers(gs, n - 1) + [GroupValue(gs[n - 1])]
  }

  lemma {:induction false} ParsedPeersAt(gs: seq<PeerGroup>, n: nat, i: nat)
    requires ValidGroups(gs) && i < n <= |gs|
    ensures ParsedPeers(gs, n)[i] == GroupValue(gs[i])
  {
    hide GroupValue, ValidGroup;
    if i < n - 1 {
      ParsedPeersAt(gs, n - 1, i);
    }
  }

  function Header(name: string, r: Interface): Device {
    Device(
      name,
      if Has(r.flags, INTERFACE_HAS_PRIVATE_KEY) then r.privateKey
        else ZeroKey(), Has(r.flags, INTERFACE_HAS_PRIVATE_KEY),
      if Has(r.flags, INTERFACE_HAS_PUBLIC_KEY) then r.publicKey else ZeroKey(), Has(r.flags, INTERFACE_HAS_PUBLIC_KEY),
      if Has(r.flags, INTERFACE_HAS_LISTEN_PORT) then r.listenPort else 0, Has(r.flags, INTERFACE_HAS_LISTEN_PORT),
      0, false, [])
  }

  // ----- the cursors of the source -----

  function FirstPeer(interface_: nat): nat { interface_ + SIZE.interface_ }

  function NextPeer(p: nat, count: nat): nat { p + SIZE.peer + count * SIZE.net }

  function FirstAllowedIP(p: nat): nat { p + SIZE.peer }

  function NextAllowedIP(a: nat): nat { a + SIZE.net }

  /** Reading a record through a cursor. */
  method ReadNetAt(buffer: seq<byte>, a: nat, ghost r: NetRecord) returns (record: NetRecord)
    requires Holds(buffer, a, NetBytes(r)) && NetInRange(r)
    ensures record == r
  {
    NetRoundTrip(r);
    HeldSlice(buffer, a, NetBytes(r));
    record := ReadNet(buffer[a..a + 24]);
  }

  method ReadPeerAt(buffer: seq<byte>, p: nat, ghost r: PeerRecord) returns (record: PeerRecord)
    requires Holds(buffer, p, Join(PeerFields(r))) && PeerInRange(r)
    ensures record == r
  {
    PeerRoundTrip(r);
    HeldSlice(buffer, p, Join(PeerFields(r)));
    record := ReadPeer(buffer[p..p + 136]);
  }

  method ReadInterfaceAt(buffer: seq<byte>, ghost r: Interface) returns (record: Interface)
    requires Holds(buffer, 0, Join(InterfaceFields(r))) && InterfaceInRange(r)
    ensures record == r
  {
    InterfaceRoundTrip(r);
    HeldSlice(buffer, 0, Join(InterfaceFields(r)));
    record := ReadInterface(buffer[0..0 + 80]);
  }

  ghost predicate NetsHeld(buffer: seq<byte>, at: nat, rs: seq<NetRecord>) {
    forall j :: 0 <= j < |rs| ==> Holds(buffer, at + Span(j, SIZE), NetBytes(rs[j]))
  }

  ghost predicate GroupHeld(buffer: seq<byte>, p: nat, g: PeerGroup) {
    Holds(buffer, p, Join(PeerFields(g.peer))) && NetsHeld(buffer, p + SIZE.peer, g.nets)
  }

  method ParseNets(buffer: seq<byte>, p: nat, count: nat, ghost rs: seq<NetRecord>)
    returns (nets: seq<ParsedNet>)
    requires count == |rs| && ValidNets(rs) && NetsHeld(buffer, p + SIZE.peer, rs)
    ensures nets == NetValues(rs)
  {
    hide Holds, NetBytes, NetValue, NetInRange;
    nets := [];
    var a: Option<nat> := None;
    for j := 0 to count
      invariant a == if j == 0 then None else Some(p + SIZE.peer + Span(j - 1, SIZE))
      invariant |nets| == j && forall m :: 0 <= m < j ==> nets[m] == NetValue(rs[m])
    {
      if a.None? {
        a := Some(FirstAllowedIP(p));
      } else {
        a := Some(NextAllowedIP(a.value));
      }
      var record := ReadNetAt(buffer, a.value, rs[j]);
      nets := nets + [NetValue(record)];
    }
  }

  /** The offset of peer `i`, by the counts. */
  ghost function Cursor(gs: seq<PeerGroup>, i: nat): nat
    requires i <= |gs|
  {
    if i == 0 then FirstPeer(0) else NextPeer(Cursor(gs, i - 1), |gs[i - 1].nets|)
  }

  /** One peer of the walk: its record, then its networks. */
  method ParseGroup(buffer: seq<byte>, p: nat, ghost interface_: Interface, ghost gs: seq<PeerGroup>, ghost i: nat)
    returns (peer: ParsedPeer, count: nat)
    requires buffer == BufferOf(interface_, gs) && i < |gs| && p == Cursor(gs, i) && ValidGroup(gs[i])
    ensures peer == GroupValue(gs[i]) && count == |gs[i].nets|
  {
    GroupIsHeld(interface_, gs, i);
    ghost var g := gs[i];
    var record := ReadPeerAt(buffer, p, g.peer);
    count := record.allowedIPsCount;
    var nets := ParseNets(buffer, p, count, g.nets);
    peer := ParsedPeer(PeerValue(record), Has(record.flags, PEER_HAS_ENDPOINT), nets);
  }

  method ParsePeers(buffer: seq<byte>, peerCount: nat, ghost interface_: Interface, ghost gs: seq<PeerGroup>)
    returns (peers: seq<ParsedPeer>)
    requires ValidGroups(gs) && peerCount == |gs| && buffer == BufferOf(interface_, gs)
    ensures peers == ParsedPeers(gs, |gs|)
  {
    peers := [];
    var p: Option<nat> := None;
    var count := 0;
    for i := 0 to peerCount
      invariant p == if i == 0 then None else Some(Cursor(gs, i - 1))
      invariant i > 0 ==> count == |gs[i - 1].nets|
      invariant peers == ParsedPeers(gs, i)
    {
      p, count, peers := NextGroup(buffer, p, count, peers, interface_, gs);
    }
  }

  /** One turn of the loop: advance the cursor, parse the peer there, append it. */
  method NextGroup(buffer: seq<byte>, last: Option<nat>, lastCount: nat, before: seq<ParsedPeer>,
                   ghost interface_: Interface, ghost gs: seq<PeerGroup>)
    returns (p: Option<nat>, count: nat, peers: seq<ParsedPeer>)
    requires buffer == BufferOf(interface_, gs) && |before| < |gs| && ValidGroup(gs[|before|])
    requires last == if |before| == 0 then None else Some(Cursor(gs, |before| - 1))
    requires |before| > 0 ==> lastCount == |gs[|before| - 1].nets|
    ensures p == Some(Cursor(gs, |before|)) && count == |gs[|before|].nets|
    ensures peers == before + [GroupValue(gs[|before|])]
  {
    if last.None? {
      p := Some(FirstPeer(0));
    } else {
      p := Some(NextPeer(last.value, lastCount));
    }
    var peer;
    peer, count := ParseGroup(buffer, p.value, interface_, gs, |before|);
    peers := before + [peer];
  }

  /** The walk by counts reads only inside the buffer, and finds its records in order. */
  method ParseConfiguration(name: string, buffer: seq<byte>, ghost interface_: Interface, ghost gs: seq<PeerGroup>)
    returns (device: ParsedDevice)
    requires ValidRecords(interface_, gs) && buffer == BufferOf(interface_, gs)
    ensures device == ParsedDevice(Header(name, interface_), ParsedPeers(gs, |gs|))
  {
    InterfaceIsHeld(interface_, gs);
    var record := ReadInterfaceAt(buffer, interface_);
    var peers := ParsePeers(buffer, record.peerCount, interface_, gs);
    device := ParsedDevice(Header(name, record), peers);
  }

  /** The cursor steps of the source visit the offsets of the records. */
  lemma {:induction false} CursorAt(gs: seq<PeerGroup>, i: nat)
    requires i <= |gs|
    ensures Cursor(gs, i) == PeerAt(RawGroups(gs), SIZE, i)
  {
    if i == 0 {
    } else {
      CursorAt(gs, i - 1);
      RawGroupsAt(gs, i - 1);
      SpanIsProduct(|gs[i - 1].nets|, SIZE);
    }
  }

  lemma {:induction false} NetsAreHeld(interface_: Interface, gs: seq<PeerGroup>, i: nat, at: nat)
    requires i < |gs| && at == PeerAt(RawGroups(gs), SIZE, i) + SIZE.peer
    ensures NetsHeld(BufferOf(interface_, gs), at, gs[i].nets)
  {
    var head, raw := Join(InterfaceFields(interface_)), RawGroups(gs);
    var buffer, rs := Bytes(head, raw), gs[i].nets;
    BufferSized(interface_, gs);
    RawGroupsAt(gs, i);
    forall j | 0 <= j < |rs|
      ensures Holds(buffer, at + Span(j, SIZE), NetBytes(rs[j]))
    {
      NetRecordAt(head, raw, SIZE, i, j);
      NetsBytesAt(rs, j);
    }
  }

  lemma {:induction false} GroupIsHeld(interface_: Interface, gs: seq<PeerGroup>, i: nat)
    requires i < |gs|
    ensures GroupHeld(BufferOf(interface_, gs), Cursor(gs, i), gs[i])
  {
    CursorAt(gs, i);
    BufferSized(interface_, gs);
    RawGroupsAt(gs, i);
    PeerRecordAt(Join(InterfaceFields(interface_)), RawGroups(gs), SIZE, i);
    NetsAreHeld(interface_, gs, i, Cursor(gs, i) + SIZE.peer);
  }

  lemma {:induction false} InterfaceIsHeld(interface_: Interface, gs: seq<PeerGroup>)
    ensures Holds(BufferOf(interface_, gs), 0, Join(InterfaceFields(interface_)))
  {
    BufferSized(interface_, gs);
    InterfaceAt(Join(InterfaceFields(interface_)), RawGroups(gs), SIZE);
  }

  // ----- the round trip -----

  /** What becomes of a network: an IPv4-mapped one gets the mask of IPv4 for the length it had in IPv6. */
  function SeenNet(c: Cidr): ParsedNet {
    if !MappedNet(c) then Network(c)
    else if c.ones6 <= 32 then Network(Cidr4(c.addr6[12..], c.ones6))
    else NoMask(c.addr6[12..])
  }

  lemma {:induction false} NetParses(op: AllowedIPConfig)
    ensures NetInRange(NetOf(op)) && NetValue(NetOf(op)) == SeenNet(op.net)
  {
    match Unmap(CidrIP(op.net))
    case IP4(a) => assert (a + Zeros(12))[..4] == a;
    case IP6(_) =>
  }

  /** ::ffff:10.0.0.0/104, which stands for 10.0.0.0/8, is read back without a mask. */
  lemma {:induction false} MappedNetLosesMask(operation: AllowedIPOperation)
    ensures var c := Cidr6(Zeros(10) + [255, 255, 10, 0, 0, 0], 104);
            MappedNet(c) && NetValue(NetOf(AllowedIPConfig(c, operation))) == NoMask([10, 0, 0, 0])
  {
    var a := Zeros(10) + [255, 255, 10, 0, 0, 0];
    NetParses(AllowedIPConfig(Cidr6(a, 104), operation));
    assert a[12..] == [10, 0, 0, 0];
  }

  lemma {:induction false} NetsOfAt(ops: seq<AllowedIPConfig>, j: nat)
    requires j < |ops|
    ensures NetsOf(ops)[j] == NetOf(ops[j])
  {
    if j == |ops| - 1 {
    } else {
      NetsOfAt(ops[..|ops| - 1], j);
    }
  }

  lemma {:induction false} Digits(b1: nat, b2: nat, b3: nat, high: nat, f: nat)
    requires b1 <= 1 && b2 <= 1 && b3 <= 1
    requires f == 1 + 2 * b1 + 4 * b2 + 8 * b3 + 32 * high
    ensures f / 2 == b1 + 2 * b2 + 4 * b3 + 16 * high
    ensures f / 4 == b2 + 2 * b3 + 8 * high
    ensures f / 8 == b3 + 4 * high
    ensures f / 16 == 2 * high
  {
  }

  lemma {:induction false} Parities(b1: nat, b2: nat, b3: nat, high: nat, f: nat)
    requires b1 <= 1 && b2 <= 1 && b3 <= 1
    requires f == 1 + 2 * b1 + 4 * b2 + 8 * b3 + 32 * high
    ensures f % 2 == 1 && f / 2 % 2 == b1 && f / 4 % 2 == b2 && f / 8 % 2 == b3 && f / 16 % 2 == 0
  {
    Digits(b1, b2, b3, high, f);
    Half(f, b1 + 2 * b2 + 4 * b3 + 16 * high, 1);
    Half(f / 2, b2 + 2 * b3 + 8 * high, b1);
    Half(f / 4, b3 + 4 * high, b2);
    Half(f / 8, 2 * high, b3);
    Half(f / 16, high, 0);
  }

  lemma {:induction false} Half(n: nat, q: nat, b: nat)
    requires n == 2 * q + b && b <= 1
    ensures n % 2 == b
  {
  }

  /** The flags of a peer, by their digits. */
  lemma {:induction false} FlagDigits(p: PeerConfig) returns (high: nat)
    ensures PeerFlags(p) == 1 + 2 * Bit(p.presharedKey.Some?, 1) + 4 * Bit(p.keepalive.Some?, 1)
                            + 8 * Bit(p.endpoint.Some?, 1) + 32 * high
  {
    high := Bit(p.replaceAllowedIPs, 1) + Bit(p.remove, 2) + Bit(p.updateOnly, 4);
  }

  lemma {:induction false} FlagsOfPeer(p: PeerConfig)
    ensures Has(PeerFlags(p), PEER_HAS_PUBLIC_KEY) && !Has(PeerFlags(p), PEER_HAS_PROTOCOL_VERSION)
    ensures Has(PeerFlags(p), PEER_HAS_PRESHARED_KEY) == p.presharedKey.Some?
    ensures Has(PeerFlags(p), PEER_HAS_ENDPOINT) == p.endpoint.Some?
    ensures Has(PeerFlags(p), PEER_HAS_PERSISTENT_KEEPALIVE) == p.keepalive.Some?
  {
    hide PeerFlags;
    var high := FlagDigits(p);
    Parities(Bit(p.presharedKey.Some?, 1), Bit(p.keepalive.Some?, 1), Bit(p.endpoint.Some?, 1), high, PeerFlags(p));
  }

  lemma {:induction false} FlagsOfInterface(cfg: Config)
    ensures Has(InterfaceFlags(cfg), INTERFACE_HAS_PRIVATE_KEY) == cfg.privateKey.Some?
    ensures Has(InterfaceFlags(cfg), INTERFACE_HAS_LISTEN_PORT) == cfg.listenPort.Some?
    ensures !Has(InterfaceFlags(cfg), INTERFACE_HAS_PUBLIC_KEY)
  {
  }

  /** The networks of an entry, followed by those of its operations. */
  function NetsIn(p: PeerConfig): (r: seq<Cidr>)
    ensures |r| == |Entries(p)|
  {
    p.allowedIPs + seq(|p.operations|, j requires 0 <= j < |p.operations| => p.operations[j].net)
  }

  lemma {:induction false} NetsInAt(p: PeerConfig, j: nat)
    requires j < |Entries(p)|
    ensures NetsIn(p)[j] == Entries(p)[j].net
  {
  }

  function SeenNets(nets: seq<Cidr>): (r: seq<ParsedNet>)
    ensures |r| == |nets|
  {
    seq(|nets|, j requires 0 <= j < |nets| => SeenNet(nets[j]))
  }

  /** The peer a parser should see in the entry `p`. */
  function SeenPeer(p: PeerConfig): Peer {
    Peer(
      None, p.publicKey, p.presharedKey.GetOr(ZeroKey()), p.presharedKey.Some?,
      if p.endpoint.Some? then Some(SeenEndpoint(p.endpoint.value)) else None,
      if p.keepalive.Some? then KeepaliveSeconds(p.keepalive.value) * SECOND else 0, p.keepalive.Some?,
      None, 0, 0, [], 0)
  }

  /** An endpoint without its zone, and an IPv4-mapped address as IPv4. */
  function SeenEndpoint(e: UDPAddr): UDPAddr {
    UDPAddr(Unmap(e.ip), Uint16(e.port), "")
  }

  function Seen(p: PeerConfig): ParsedPeer {
    ParsedPeer(SeenPeer(p), p.endpoint.Some?, SeenNets(NetsIn(p)))
  }

  /** The device fields a parser should see. */
  function SeenHeader(name: string, cfg: Config): Device {
    Device(
      name, cfg.privateKey.GetOr(ZeroKey()), cfg.privateKey.Some?, ZeroKey(), false,
      if cfg.listenPort.Some? then Uint16(cfg.listenPort.value) else 0, cfg.listenPort.Some?, 0, false, [])
  }

  lemma {:induction false} GroupValid(p: PeerConfig)
    requires |Entries(p)| < 0x1_0000_0000
    ensures ValidGroup(GroupOf(p))
  {
    PeerOfInRange(p);
    FlagsOfPeer(p);
    if p.endpoint.Some? {
      SockaddrRoundTrip(p.endpoint.value.ip, Uint16(p.endpoint.value.port));
    }
    var ops := Entries(p);
    forall j | 0 <= j < |ops|
      ensures NetInRange(NetsOf(ops)[j])
    {
      NetsOfAt(ops, j);
      NetParses(ops[j]);
    }
  }

  lemma {:induction false} NetsSeen(p: PeerConfig)
    ensures NetValues(NetsOf(Entries(p))) == SeenNets(NetsIn(p))
  {
    hide NetOf, NetValue, SeenNet, Entries, NetsIn;
    var ops := Entries(p);
    forall j | 0 <= j < |ops|
      ensures NetValues(NetsOf(ops))[j] == SeenNet(NetsIn(p)[j])
    {
      NetsOfAt(ops, j);
      NetParses(ops[j]);
      NetsInAt(p, j);
    }
  }

  lemma {:induction false} EndpointSeen(e: UDPAddr)
    ensures EndpointValue(SetIP(e.ip, Uint16(e.port))) == Some(SeenEndpoint(e))
  {
    hide SetIP, GetIP, GetPort, Unmap;
    SockaddrRoundTrip(e.ip, Uint16(e.port));
  }

  lemma {:induction false} PeerSeen(p: PeerConfig)
    requires |Entries(p)| < 0x1_0000_0000 && ValidGroup(GroupOf(p))
    ensures GroupValue(GroupOf(p)) == Seen(p)
  {
    hide Has, PeerFlags, SetIP, EndpointValue, SeenEndpoint, NetValues, NetsOf, NetsIn, SeenNets, Entries, ValidGroup,
      KeepaliveSeconds, Uint32;
    NetsSeen(p);
    FlagsOfPeer(p);
    if p.endpoint.Some? {
      EndpointSeen(p.endpoint.value);
    }
  }

  lemma {:induction false} EntriesBelow(ps: seq<PeerConfig>, i: nat)
    requires i < |ps|
    ensures |Entries(ps[i])| <= NetCount(ps)
  {
    if i == |ps| - 1 {
    } else {
      EntriesBelow(ps[..|ps| - 1], i);
    }
  }

  lemma {:induction false} HeaderSeen(name: string, cfg: Config)
    ensures Header(name, InterfaceOf(cfg)) == SeenHeader(name, cfg)
  {
    FlagsOfInterface(cfg);
  }

  lemma {:induction false} PreallocationBounds(cfg: Config)
    requires Preallocation(cfg) < 0x1_0000_0000
    ensures |cfg.peers| < 0x1_0000_0000 && NetCount(cfg.peers) < 0x1_0000_0000
  {
  }

  /** Whatever fits the driver's 32-bit sizes is laid out as valid records. */
  lemma {:induction false} BuiltRecordsValid(cfg: Config)
    requires Preallocation(cfg) < 0x1_0000_0000
    ensures ValidRecords(InterfaceOf(cfg), GroupsOf(cfg.peers))
  {
    hide ValidGroup, GroupOf, Entries, InterfaceInRange, NetCount;
    InRange(cfg);
    PreallocationBounds(cfg);
    forall i | 0 <= i < |cfg.peers|
      ensures ValidGroup(GroupsOf(cfg.peers)[i])
    {
      GroupsOfAt(cfg.peers, i);
      EntriesBelow(cfg.peers, i);
      GroupValid(cfg.peers[i]);
    }
  }

  /**
   * The buffer built from a configuration parses to its private key and port and, peer by
   * peer in order, to its key, preshared key, endpoint, whole keepalive seconds, and its
   * networks followed by those of its operations.
   */
  lemma {:induction false} BuiltBufferParses(cfg: Config)
    requires Preallocation(cfg) < 0x1_0000_0000
    ensures ValidRecords(InterfaceOf(cfg), GroupsOf(cfg.peers))
    ensures forall i :: 0 <= i < |cfg.peers| ==>
              ParsedPeers(GroupsOf(cfg.peers), |cfg.peers|)[i] == Seen(cfg.peers[i])
  {
    hide Seen, GroupOf, GroupValue;
    BuiltRecordsValid(cfg);
    var gs := GroupsOf(cfg.peers);
    forall i | 0 <= i < |gs|
      ensures ParsedPeers(gs, |gs|)[i] == Seen(cfg.peers[i])
    {
      ParsedPeersAt(gs, |gs|, i);
      GroupsOfAt(cfg.peers, i);
      EntriesBelow(cfg.peers, i);
      PeerSeen(cfg.peers[i]);
    }
  }

  predicate NoMappedNet(nets: seq<Cidr>) {
    forall j :: 0 <= j < |nets| ==> !MappedNet(nets[j])
  }

  lemma {:induction false} IntactExactly(nets: seq<Cidr>)
    ensures SeenNets(nets) == Intact(nets) <==> NoMappedNet(nets)
  {
    hide Mapped;
    if SeenNets(nets) == Intact(nets) {
      forall j | 0 <= j < |nets|
        ensures !MappedNet(nets[j])
      {
        assert SeenNets(nets)[j] == Intact(nets)[j];
      }
    }
  }

  /** Each parsed peer has the networks of its entry, as they were configured. */
  ghost predicate NetworksIntact(parsed: seq<ParsedPeer>, ps: seq<PeerConfig>)
    requires |parsed| == |ps|
  {
    forall i :: 0 <= i < |ps| ==> parsed[i].nets == Intact(NetsIn(ps[i]))
  }

  ghost predicate NoMappedNets(ps: seq<PeerConfig>) {
    forall i :: 0 <= i < |ps| ==> NoMappedNet(NetsIn(ps[i]))
  }

  lemma {:induction false} SeenIntactExactly(parsed: seq<ParsedPeer>, ps: seq<PeerConfig>)
    requires |parsed| == |ps| && forall i :: 0 <= i < |ps| ==> parsed[i] == Seen(ps[i])
    ensures NetworksIntact(parsed, ps) <==> NoMappedNets(ps)
  {
    hide NetsIn, NoMappedNet, SeenNets, Intact, SeenPeer;
    forall i | 0 <= i < |ps|
      ensures parsed[i].nets == Intact(NetsIn(ps[i])) <==> NoMappedNet(NetsIn(ps[i]))
    {
      IntactExactly(NetsIn(ps[i]));
    }
  }

  /** All networks of all entries come back, exactly when none of them is an IPv4-mapped one. */
  lemma {:induction false} NetworksComeBackExactly(cfg: Config)
    requires Preallocation(cfg) < 0x1_0000_0000
    ensures ValidRecords(InterfaceOf(cfg), GroupsOf(cfg.peers))
    ensures NetworksIntact(ParsedPeers(GroupsOf(cfg.peers), |cfg.peers|), cfg.peers) <==> NoMappedNets(cfg.peers)
  {
    hide Seen, NetworksIntact, NoMappedNets, ValidGroups, InterfaceInRange, ParsedPeers;
    BuiltBufferParses(cfg);
    SeenIntactExactly(ParsedPeers(GroupsOf(cfg.peers), |cfg.peers|), cfg.peers);
  }

  /** Building a buffer and parsing it. */
  method BuildThenParse(name: string, cfg: Config) returns (device: ParsedDevice)
    requires Preallocation(cfg) < 0x1_0000_0000
    ensures device.header == SeenHeader(name, cfg)
    ensures |device.peers| == |cfg.peers|
    ensures forall i :: 0 <= i < |cfg.peers| ==> device.peers[i] == Seen(cfg.peers[i])
    ensures NetworksIntact(device.peers, cfg.peers) <==> NoMappedNets(cfg.peers)
  {
    hide Seen, NetworksIntact, NoMappedNets, Preallocation, BufferOf, ValidGroups, InterfaceInRange, Header, SeenHeader;
    var buffer, size := BuildConfiguration(cfg);
    BuiltBufferParses(cfg);
    HeaderSeen(name, cfg);
    device := ParseConfiguration(name, buffer, InterfaceOf(cfg), GroupsOf(cfg.peers));
    SeenIntactExactly(device.peers, cfg.peers);
  }
}
