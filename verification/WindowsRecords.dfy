/**
 * The three records of the Windows driver and their conversions:
 * internal/wgwindows/internal/ioctl. Offsets are those of the Go structures.
 */
module WindowsRecords {
  import opened Wrappers
  import opened WgTypes
  import opened Layout
  import opened Records

  const SIZE := Sizes(80, 136, 24)

  const INTERFACE_HAS_PUBLIC_KEY := 1
  const INTERFACE_HAS_PRIVATE_KEY := 2
  const INTERFACE_HAS_LISTEN_PORT := 4
  const INTERFACE_REPLACE_PEERS := 8

  const PEER_HAS_PUBLIC_KEY := 1
  const PEER_HAS_PRESHARED_KEY := 2
  const PEER_HAS_PERSISTENT_KEEPALIVE := 4
  const PEER_HAS_ENDPOINT := 8
  const PEER_HAS_PROTOCOL_VERSION := 16
  const PEER_REPLACE_ALLOWED_IPS := 32
  const PEER_REMOVE := 64
  const PEER_UPDATE_ONLY := 128

  const ALLOWED_IP_REMOVE_FLAG := 1

  const AF_INET := 2
  const AF_INET6 := 23

  type Pad1 = b: seq<byte> | |b| == 1 witness seq(1, _ => 0)
  type Pad2 = b: seq<byte> | |b| == 2 witness seq(2, _ => 0)

  /** Unused bytes are part of a record: the driver may leave anything in them. */
  datatype Interface = Interface(
    flags: nat, listenPort: nat, privateKey: Key, publicKey: Key, pad2: Pad2, peerCount: nat, pad4: Bytes4)

  type Bytes28 = b: seq<byte> | |b| == 28 witness seq(28, _ => 0)

  datatype PeerRecord = PeerRecord(
    flags: nat, protocolVersion: nat, publicKey: Key, presharedKey: Key, keepalive: nat, pad2: Pad2,
    endpoint: Bytes28, txBytes: nat, rxBytes: nat, lastHandshake: nat, allowedIPsCount: nat, pad4: Bytes4)

  datatype NetRecord = NetRecord(address: Bytes16, family: nat, cidr: nat, pad1: Pad1, flags: nat)

  // ----- bytes of a record -----

  function InterfaceFields(r: Interface): seq<seq<byte>> {
    [PutUint(r.flags, 4), PutUint(r.listenPort, 2), r.privateKey, r.publicKey, r.pad2,
     PutUint(r.peerCount, 4), r.pad4]
  }

  function PeerFields(r: PeerRecord): seq<seq<byte>> {
    [PutUint(r.flags, 4), PutUint(r.protocolVersion, 4), r.publicKey, r.presharedKey,
     PutUint(r.keepalive, 2), r.pad2, r.endpoint, PutUint(r.txBytes, 8), PutUint(r.rxBytes, 8),
     PutUint(r.lastHandshake, 8), PutUint(r.allowedIPsCount, 4), r.pad4]
  }

  function NetFields(r: NetRecord): seq<seq<byte>> {
    [r.address, PutUint(r.family, 2), PutUint(r.cidr, 1), r.pad1, PutUint(r.flags, 4)]
  }

  // ----- the record in some bytes -----

  function ReadInterface(b: seq<byte>): Interface
    requires |b| == 80
  {
    Interface(Uint(b[0..4]), Uint(b[4..6]), b[6..38], b[38..70], b[70..72], Uint(b[72..76]), b[76..80])
  }

  function ReadPeer(b: seq<byte>): PeerRecord
    requires |b| == 136
  {
    PeerRecord(
      Uint(b[0..4]), Uint(b[4..8]), b[8..40], b[40..72], Uint(b[72..74]), b[74..76],
      b[76..104], Uint(b[104..112]), Uint(b[112..120]), Uint(b[120..128]), Uint(b[128..132]), b[132..136])
  }

  function ReadNet(b: seq<byte>): NetRecord
    requires |b| == 24
  {
    NetRecord(b[0..16], Uint(b[16..18]), Uint(b[18..19]), b[19..20], Uint(b[20..24]))
  }

  predicate InterfaceInRange(r: Interface) {
    r.flags < 0x1_0000_0000 && r.listenPort < 0x1_0000 && r.peerCount < 0x1_0000_0000
  }

  predicate PeerInRange(r: PeerRecord) {
    && r.flags < 0x1_0000_0000 && r.protocolVersion < 0x1_0000_0000 && r.keepalive < 0x1_0000
    && r.txBytes < 0x1_0000_0000_0000_0000 && r.rxBytes < 0x1_0000_0000_0000_0000
    && r.lastHandshake < 0x1_0000_0000_0000_0000 && r.allowedIPsCount < 0x1_0000_0000
  }

  predicate NetInRange(r: NetRecord) {
    r.family < 0x1_0000 && r.cidr < 0x100 && r.flags < 0x1_0000_0000
  }

  lemma {:induction false} InterfaceOffsets(r: Interface)
    ensures var f := InterfaceFields(r);
            && Before(f, 1) == 4 && Before(f, 2) == 6 && Before(f, 3) == 38 && Before(f, 4) == 70
            && Before(f, 5) == 72 && Before(f, 6) == 76 && |Join(f)| == 80
  {
    var f := InterfaceFields(r);
    assert Before(f, 1) == 4;
    assert Before(f, 2) == 6;
    assert Before(f, 3) == 38;
    assert Before(f, 4) == 70;
    assert Before(f, 5) == 72;
    assert Before(f, 6) == 76;
    RecordLength(f);
  }

  lemma {:induction false} InterfaceRoundTrip(r: Interface)
    requires InterfaceInRange(r)
    ensures |Join(InterfaceFields(r))| == 80
    ensures ReadInterface(Join(InterfaceFields(r))) == r
  {
    var f := InterfaceFields(r);
    Powers();
    InterfaceOffsets(r);
    ReadNumber(f, 0, 0, r.flags, 4);
    ReadNumber(f, 1, 4, r.listenPort, 2);
    ReadField(f, 2, 6);
    ReadField(f, 3, 38);
    ReadField(f, 4, 70);
    ReadNumber(f, 5, 72, r.peerCount, 4);
    ReadField(f, 6, 76);
  }

  lemma {:induction false} PeerOffsets(r: PeerRecord)
    ensures var f := PeerFields(r);
            && Before(f, 1) == 4 && Before(f, 2) == 8 && Before(f, 3) == 40 && Before(f, 4) == 72
            && Before(f, 5) == 74 && Before(f, 6) == 76 && Before(f, 7) == 104 && Before(f, 8) == 112
              && Before(f, 9) == 120
            && Before(f, 10) == 128 && Before(f, 11) == 132 && |Join(f)| == 136
  {
    var f := PeerFields(r);
    assert Before(f, 1) == 4;
    assert Before(f, 2) == 8;
    assert Before(f, 3) == 40;
    assert Before(f, 4) == 72;
    assert Before(f, 5) == 74;
    assert Before(f, 6) == 76;
    assert Before(f, 7) == 104;
    assert Before(f, 8) == 112;
    assert Before(f, 9) == 120;
    assert Before(f, 10) == 128;
    assert Before(f, 11) == 132;
    RecordLength(f);
  }

  lemma {:induction false} PeerRoundTrip(r: PeerRecord)
    requires PeerInRange(r)
    ensures |Join(PeerFields(r))| == 136
    ensures ReadPeer(Join(PeerFields(r))) == r
  {
    var f := PeerFields(r);
    Powers();
    PeerOffsets(r);
    ReadNumber(f, 0, 0, r.flags, 4);
    ReadNumber(f, 1, 4, r.protocolVersion, 4);
    ReadField(f, 2, 8);
    ReadField(f, 3, 40);
    ReadNumber(f, 4, 72, r.keepalive, 2);
    ReadField(f, 5, 74);
    ReadField(f, 6, 76);
    ReadNumber(f, 7, 104, r.txBytes, 8);
    ReadNumber(f, 8, 112, r.rxBytes, 8);
    ReadNumber(f, 9, 120, r.lastHandshake, 8);
    ReadNumber(f, 10, 128, r.allowedIPsCount, 4);
    ReadField(f, 11, 132);
  }

  lemma {:induction false} NetOffsets(r: NetRecord)
    ensures var f := NetFields(r);
            Before(f, 1) == 16 && Before(f, 2) == 18 && Before(f, 3) == 19 && Before(f, 4) == 20 && |Join(f)| == 24
  {
    var f := NetFields(r);
    assert Before(f, 1) == 16;
    assert Before(f, 2) == 18;
    assert Before(f, 3) == 19;
    assert Before(f, 4) == 20;
    RecordLength(f);
  }

  lemma {:induction false} NetRoundTrip(r: NetRecord)
    requires NetInRange(r)
    ensures |Join(NetFields(r))| == 24
    ensures ReadNet(Join(NetFields(r))) == r
  {
    var f := NetFields(r);
    Powers();
    NetOffsets(r);
    ReadField(f, 0, 0);
    ReadNumber(f, 1, 16, r.family, 2);
    ReadNumber(f, 2, 18, r.cidr, 1);
    ReadField(f, 3, 19);
    ReadNumber(f, 4, 20, r.flags, 4);
  }

  // ----- socket addresses -----

  /** htons: a port as the two bytes, high byte first. */
  function PortBytes(port: int): (r: seq<byte>)
    requires 0 <= port < 0x1_0000
    ensures |r| == 2
  {
    [port / 256, port % 256]
  }

  function BigEndian(high: int, low: int): int {
    256 * high + low
  }

  /** SetIP on a zeroed sockaddr; To4 is tried first. */
  function SetIP(ip: IP, port: int): Bytes28
    requires 0 <= port < 0x1_0000
  {
    match Unmap(ip)
    case IP4(a) => PutUint(AF_INET, 2) + PortBytes(port) + a + Zeros(20)
    case IP6(a) => PutUint(AF_INET6, 2) + PortBytes(port) + Zeros(4) + a + Zeros(4)
  }

  function Family(b: Bytes28): nat { Uint(b[0..2]) }

  function GetIP(b: Bytes28): Option<IP> {
    if Family(b) == AF_INET then Some(IP4(b[4..8]))
    else if Family(b) == AF_INET6 then Some(IP6(b[8..24]))
    else None
  }

  function GetPort(b: Bytes28): int {
    if Family(b) == AF_INET || Family(b) == AF_INET6 then BigEndian(b[2], b[3]) else 0
  }

  /** The port comes back, and the address as To4 sees it. */
  lemma {:induction false} SockaddrRoundTrip(ip: IP, port: int)
    requires 0 <= port < 0x1_0000
    ensures GetIP(SetIP(ip, port)) == Some(Unmap(ip))
    ensures GetPort(SetIP(ip, port)) == port
  {
    var b := SetIP(ip, port);
    Powers();
    UintOfPut(AF_INET, 2);
    UintOfPut(AF_INET6, 2);
    assert b[0..2] == PutUint(if Unmap(ip).IP4? then AF_INET else AF_INET6, 2);
    match Unmap(ip)
    case IP4(a) => assert b[4..8] == a;
    case IP6(a) => assert b[8..24] == a;
  }

  // ----- a buffer of records -----

  /** A peer record with the network records behind it. */
  datatype PeerGroup = PeerGroup(peer: PeerRecord, nets: seq<NetRecord>)

  function NetBytes(r: NetRecord): seq<byte> {
    Join(NetFields(r))
  }

  function NetsBytes(rs: seq<NetRecord>): (r: seq<seq<byte>>)
    ensures |r| == |rs|
  {
    if rs == [] then [] else NetsBytes(rs[..|rs| - 1]) + [NetBytes(rs[|rs| - 1])]
  }

  function RawGroup(g: PeerGroup): Group {
    Group(Join(PeerFields(g.peer)), NetsBytes(g.nets))
  }

  function RawGroups(gs: seq<PeerGroup>): (r: seq<Group>)
    ensures |r| == |gs|
  {
    if gs == [] then [] else RawGroups(gs[..|gs| - 1]) + [RawGroup(gs[|gs| - 1])]
  }

  function BufferOf(interface_: Interface, gs: seq<PeerGroup>): seq<byte> {
    Bytes(Join(InterfaceFields(interface_)), RawGroups(gs))
  }

  lemma {:induction false} NetsBytesAt(rs: seq<NetRecord>, j: nat)
    requires j < |rs|
    ensures NetsBytes(rs)[j] == NetBytes(rs[j])
  {
    if j == |rs| - 1 {
    } else {
      NetsBytesAt(rs[..|rs| - 1], j);
    }
  }

  lemma {:induction false} RawGroupsAt(gs: seq<PeerGroup>, i: nat)
    requires i < |gs|
    ensures RawGroups(gs)[i] == RawGroup(gs[i])
  {
    if i == |gs| - 1 {
    } else {
      RawGroupsAt(gs[..|gs| - 1], i);
    }
  }

  /** Every buffer of records has the sizes the walk relies on. */
  lemma {:induction false} BufferSized(interface_: Interface, gs: seq<PeerGroup>)
    ensures Sized(Join(InterfaceFields(interface_)), RawGroups(gs), SIZE)
  {
    InterfaceOffsets(interface_);
    forall i | 0 <= i < |gs|
      ensures SizedGroup(RawGroups(gs)[i], SIZE)
    {
      RawGroupsAt(gs, i);
      PeerOffsets(gs[i].peer);
      forall j | 0 <= j < |gs[i].nets|
        ensures |NetsBytes(gs[i].nets)[j]| == SIZE.net
      {
        NetsBytesAt(gs[i].nets, j);
        NetOffsets(gs[i].nets[j]);
      }
    }
  }
}
