/** The values of package wgtypes: keys, addresses, configurations and device dumps. */
module WgTypes {
  import opened Wrappers

  type byte = x: int | 0 <= x < 256

  const KEY_LEN := 32
  type Key = k: seq<byte> | |k| == KEY_LEN witness seq(KEY_LEN, _ => 0)
  function ZeroKey(): Key {
    seq(KEY_LEN, _ => 0)
  }

  type Bytes4 = b: seq<byte> | |b| == 4 witness seq(4, _ => 0)
  type Bytes16 = b: seq<byte> | |b| == 16 witness seq(16, _ => 0)

  /** A valid net.IP by its length. An IPv4 address may also be held in 16 bytes, as an IPv4-mapped one. */
  datatype IP = IP4(b4: Bytes4) | IP6(b6: Bytes16)

  /** ::ffff:0:0/96, where IPv6 addresses stand for IPv4 ones. */
  predicate Mapped(b: Bytes16) {
    (forall i :: 0 <= i < 10 ==> b[i] == 0) && b[10] == 255 && b[11] == 255
  }

  /** The address as To4 sees it: an IPv4-mapped one is the IPv4 address it stands for. */
  function Unmap(ip: IP): IP {
    if ip.IP6? && Mapped(ip.b6) then IP4(ip.b6[12..]) else ip
  }

  type Ones4 = n: int | 0 <= n <= 32
  type Ones6 = n: int | 0 <= n <= 128

  /** A net.IPNet with a canonical mask; host bits are kept, as net.IPNet keeps them. */
  datatype Cidr = Cidr4(addr4: Bytes4, ones4: Ones4) | Cidr6(addr6: Bytes16, ones6: Ones6)

  function CidrIP(c: Cidr): IP {
    match c
    case Cidr4(a, _) => IP4(a)
    case Cidr6(a, _) => IP6(a)
  }

  function CidrOnes(c: Cidr): nat {
    match c
    case Cidr4(_, n) => n
    case Cidr6(_, n) => n
  }

  /** An IPv4-mapped network: an IPv4 address with an IPv6 mask. */
  predicate MappedNet(c: Cidr) {
    c.Cidr6? && Mapped(c.addr6)
  }

  datatype UDPAddr = UDPAddr(ip: IP, port: int, zone: string)

  datatype AllowedIPOperation = AllowedIPSet | AllowedIPAdd | AllowedIPRemove

  datatype AllowedIPConfig = AllowedIPConfig(net: Cidr, operation: AllowedIPOperation)

  /** Keepalive intervals are time.Duration values: nanoseconds. */
  const SECOND := 1_000_000_000

  datatype PeerConfig = PeerConfig(
    name: Option<string>,
    publicKey: Key,
    remove: bool,
    updateOnly: bool,
    presharedKey: Option<Key>,
    endpoint: Option<UDPAddr>,
    keepalive: Option<int>,
    replaceAllowedIPs: bool,
    allowedIPs: seq<Cidr>,
    operations: seq<AllowedIPConfig>)

  datatype Config = Config(
    privateKey: Option<Key>,
    listenPort: Option<int>,
    firewallMark: Option<int>,
    replacePeers: bool,
    peers: seq<PeerConfig>)

  /** A peer as a device dump reports it; `endpoint` is None when HasEndpoint is false. */
  datatype Peer = Peer(
    name: Option<string>,
    publicKey: Key,
    presharedKey: Key,
    hasPresharedKey: bool,
    endpoint: Option<UDPAddr>,
    keepalive: int,
    hasKeepalive: bool,
    lastHandshake: Option<(int, int)>,
    receiveBytes: int,
    transmitBytes: int,
    allowedIPs: seq<Cidr>,
    protocolVersion: int)

  datatype Device = Device(
    name: string,
    privateKey: Key,
    hasPrivateKey: bool,
    publicKey: Key,
    hasPublicKey: bool,
    listenPort: int,
    hasListenPort: bool,
    firewallMark: int,
    hasFirewallMark: bool,
    peers: seq<Peer>)

  // ----- devices parsed from records -----

  /** A net.IPNet as parsed. net.CIDRMask gives no mask for a length that its family does not have. */
  datatype ParsedNet = Network(net: Cidr) | NoMask(ip: seq<byte>)

  /**
   * A peer as parsed: `peer` without its networks, whether it is said to have an endpoint
   * (which may be one without an address), and the networks.
   */
  datatype ParsedPeer = ParsedPeer(peer: Peer, hasEndpoint: bool, nets: seq<ParsedNet>)

  datatype ParsedDevice = ParsedDevice(header: Device, peers: seq<ParsedPeer>)

  /** An IPv4 network of any length. */
  function ParsedNet4(address: Bytes4, ones: int): ParsedNet {
    if 0 <= ones <= 32 then Network(Cidr4(address, ones)) else NoMask(address)
  }

  function ParsedNet6(address: Bytes16, ones: int): ParsedNet {
    if 0 <= ones <= 128 then Network(Cidr6(address, ones)) else NoMask(address)
  }

  /** Networks parsed as they are. */
  function Intact(nets: seq<Cidr>): (r: seq<ParsedNet>)
    ensures |r| == |nets|
  {
    seq(|nets|, j requires 0 <= j < |nets| => Network(nets[j]))
  }

  /** A peer in the kernel; a dump may come without its key. */
  datatype Dumped = Dumped(peer: Peer, keyed: bool)

  const EMPTY_PEER_CONFIG :=
    PeerConfig(None, ZeroKey(), false, false, None, None, None, false, [], [])
  const EMPTY_PEER :=
    Peer(None, ZeroKey(), ZeroKey(), false, None, 0, false, None, 0, 0, [], 0)
  const EMPTY_DEVICE :=
    Device("", ZeroKey(), false, ZeroKey(), false, 0, false, 0, false, [])

  function WithPeers(d: Device, peers: seq<Peer>): Device {
    d.(peers := peers)
  }

  function WithNets(p: Peer, nets: seq<Cidr>): Peer {
    p.(allowedIPs := nets)
  }

  ghost predicate DistinctPeers(ps: seq<Peer>) {
    forall i, j :: 0 <= i < j < |ps| ==> ps[i].publicKey != ps[j].publicKey
  }

  /** Whole seconds of a Duration, toward zero. */
  function WholeSeconds(d: int): int {
    if d >= 0 then d / SECOND else -((-d) / SECOND)
  }

  /** The 64 bits of a Go integer. */
  function Int64(n: int): int {
    (n + 0x8000_0000_0000_0000) % 0x1_0000_0000_0000_0000 - 0x8000_0000_0000_0000
  }

  /** time.Unix */
  function UnixTime(sec: int, nsec: int): (int, int) {
    (sec + nsec / SECOND, nsec % SECOND)
  }

  // ----- network masks -----

  /** The first `keep` binary digits of `b`, whose first digit has weight `w`. */
  function KeepBits(b: nat, w: nat, keep: int): (r: nat)
    ensures r <= b
  {
    if w == 0 || keep <= 0 then 0
    else if b >= w then w + KeepBits(b - w, w / 2, keep - 1)
    else KeepBits(b, w / 2, keep - 1)
  }

  function MaskByte(b: byte, keep: int): byte {
    KeepBits(b, 128, keep)
  }

  function MaskBytes(bs: seq<byte>, ones: int): (r: seq<byte>)
    ensures |r| == |bs|
  {
    seq(|bs|, i requires 0 <= i < |bs| => MaskByte(bs[i], ones - 8 * i))
  }

  /** net.IPNet with its host bits zeroed: the network itself. */
  function Masked(c: Cidr): Cidr {
    match c
    case Cidr4(a, n) => Cidr4(MaskBytes(a, n), n)
    case Cidr6(a, n) => Cidr6(MaskBytes(a, n), n)
  }

  predicate IsMasked(c: Cidr) {
    Masked(c) == c
  }

  lemma {:induction false} KeepBitsIdempotent(b: nat, w: nat, keep: int)
    ensures KeepBits(KeepBits(b, w, keep), w, keep) == KeepBits(b, w, keep)
  {
    if w > 0 && keep > 0 {
      KeepBitsIdempotent(if b >= w then b - w else b, w / 2, keep - 1);
    }
  }

  lemma {:induction false} MaskBytesIdempotent(bs: seq<byte>, ones: int)
    ensures MaskBytes(MaskBytes(bs, ones), ones) == MaskBytes(bs, ones)
  {
    forall i | 0 <= i < |bs| {
      KeepBitsIdempotent(bs[i], 128, ones - 8 * i);
    }
  }

  /** Masking a network changes nothing: a network named with or without host bits is one network. */
  lemma {:induction false} MaskedIdempotent(c: Cidr)
    ensures Masked(Masked(c)) == Masked(c)
  {
    match c
    case Cidr4(a, n) => MaskBytesIdempotent(a, n);
    case Cidr6(a, n) => MaskBytesIdempotent(a, n);
  }
}
