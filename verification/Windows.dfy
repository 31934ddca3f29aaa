/**
 * Building and parsing the driver's buffer: internal/wgwindows/client_windows.go.
 * The builder appends records; the parser walks them by their counts.
 */
module Windows {
  import opened Wrappers
  import opened WgTypes
  import opened DeviceModel
  import opened Seqs
  import opened Layout
  import opened Records
  import opened WindowsRecords

  // ----- the records of a configuration -----

  function InterfaceFlags(cfg: Config): nat {
    Bit(cfg.replacePeers, INTERFACE_REPLACE_PEERS) + Bit(cfg.privateKey.Some?, INTERFACE_HAS_PRIVATE_KEY)
    + Bit(cfg.listenPort.Some?, INTERFACE_HAS_LISTEN_PORT)
  }

  function InterfaceOf(cfg: Config): Interface {
    Interface(
      InterfaceFlags(cfg),
      if cfg.listenPort.Some? then Uint16(cfg.listenPort.value) else 0,
      cfg.privateKey.GetOr(ZeroKey()), ZeroKey(), Zeros(2), Uint32(|cfg.peers|), Zeros(4))
  }

  function PeerFlags(p: PeerConfig): nat {
    PEER_HAS_PUBLIC_KEY + Bit(p.replaceAllowedIPs, PEER_REPLACE_ALLOWED_IPS) + Bit(p.updateOnly, PEER_UPDATE_ONLY)
    + Bit(p.remove, PEER_REMOVE) + Bit(p.presharedKey.Some?, PEER_HAS_PRESHARED_KEY)
    + Bit(p.endpoint.Some?, PEER_HAS_ENDPOINT) + Bit(p.keepalive.Some?, PEER_HAS_PERSISTENT_KEEPALIVE)
  }

  function PeerOf(p: PeerConfig): PeerRecord {
    PeerRecord(
      PeerFlags(p), 0, p.publicKey, p.presharedKey.GetOr(ZeroKey()),
      if p.keepalive.Some? then KeepaliveSeconds(p.keepalive.value) else 0, Zeros(2),
      if p.endpoint.Some? then SetIP(p.endpoint.value.ip, Uint16(p.endpoint.value.port)) else Zeros(28),
      0, 0, 0, Uint32(|p.allowedIPs| + |p.operations|), Zeros(4))
  }

  /** appendAllowedIP: the family is that of the address, the length that of the mask. */
  function NetOf(op: AllowedIPConfig): NetRecord {
    var flags := if op.operation == AllowedIPRemove then ALLOWED_IP_REMOVE_FLAG else 0;
    match Unmap(CidrIP(op.net))
    case IP4(a) => NetRecord(a + Zeros(12), AF_INET, CidrOnes(op.net), Zeros(1), flags)
    case IP6(a) => NetRecord(a, AF_INET6, CidrOnes(op.net), Zeros(1), flags)
  }

  function NetsOf(ops: seq<AllowedIPConfig>): (r: seq<NetRecord>)
    ensures |r| == |ops|
  {
    if ops == [] then [] else NetsOf(ops[..|ops| - 1]) + [NetOf(ops[|ops| - 1])]
  }

  function GroupOf(p: PeerConfig): PeerGroup {
    PeerGroup(PeerOf(p), NetsOf(Entries(p)))
  }

  function GroupsOf(ps: seq<PeerConfig>): (r: seq<PeerGroup>)
    ensures |r| == |ps|
  {
    if ps == [] then [] else GroupsOf(ps[..|ps| - 1]) + [GroupOf(ps[|ps| - 1])]
  }

  /** The buffer of a configuration. */
  function ConfigBuffer(cfg: Config): seq<byte> {
    BufferOf(InterfaceOf(cfg), GroupsOf(cfg.peers))
  }

  function NetCount(ps: seq<PeerConfig>): nat {
    if ps == [] then 0
    else NetCount(ps[..|ps| - 1]) + |ps[|ps| - 1].allowedIPs| + |ps[|ps| - 1].operations|
  }

  /** The size computed before anything is appended. */
  function Preallocation(cfg: Config): nat {
    80 + 136 * |cfg.peers| + 24 * NetCount(cfg.peers)
  }

  // ----- the builder -----

  class ConfigBuilder {
    var buffer: seq<byte>
    var capacity: nat

    constructor ()
      ensures buffer == [] && capacity == 0
    {
      buffer, capacity := [], 0;
    }

    method Preallocate(size: nat)
      modifies this
      ensures buffer == old(buffer) && capacity == if old(capacity) == 0 then size else old(capacity)
    {
      if capacity == 0 {
        capacity := size;
      }
    }

    method AppendInterface(interface_: Interface)
      modifies this
      ensures buffer == old(buffer) + Join(InterfaceFields(interface_)) && capacity == old(capacity)
    {
      buffer := buffer + Join(InterfaceFields(interface_));
    }

    method AppendPeer(peer: PeerRecord)
      modifies this
      ensures buffer == old(buffer) + Join(PeerFields(peer)) && capacity == old(capacity)
    {
      buffer := buffer + Join(PeerFields(peer));
    }

    method AppendAllowedIP(net: NetRecord)
      modifies this
      ensures buffer == old(buffer) + NetBytes(net) && capacity == old(capacity)
    {
      buffer := buffer + NetBytes(net);
    }
  }

  method BuildInterface(cfg: Config) returns (interface_: Interface)
    ensures interface_ == InterfaceOf(cfg)
  {
    interface_ := Interface(0, 0, ZeroKey(), ZeroKey(), Zeros(2), Uint32(|cfg.peers|), Zeros(4));
    if cfg.replacePeers {
      interface_ := interface_.(flags := interface_.flags + INTERFACE_REPLACE_PEERS);
    }
    if cfg.privateKey.Some? {
      interface_ := interface_.(
        privateKey := cfg.privateKey.value,
        flags := interface_.flags + INTERFACE_HAS_PRIVATE_KEY);
    }
    if cfg.listenPort.Some? {
      interface_ := interface_.(
        listenPort := Uint16(cfg.listenPort.value),
        flags := interface_.flags + INTERFACE_HAS_LISTEN_PORT);
    }
  }

  method BuildPeer(p: PeerConfig) returns (peer: PeerRecord)
    ensures peer == PeerOf(p)
  {
    var flags, presharedKey, endpoint, keepalive := PEER_HAS_PUBLIC_KEY, ZeroKey(), Zeros(28), 0;
    if p.replaceAllowedIPs {
      flags := flags + PEER_REPLACE_ALLOWED_IPS;
    }
    if p.updateOnly {
      flags := flags + PEER_UPDATE_ONLY;
    }
    if p.remove {
      flags := flags + PEER_REMOVE;
    }
    if p.presharedKey.Some? {
      flags := flags + PEER_HAS_PRESHARED_KEY;
      presharedKey := p.presharedKey.value;
    }
    if p.endpoint.Some? {
      flags := flags + PEER_HAS_ENDPOINT;
      endpoint := SetIP(p.endpoint.value.ip, Uint16(p.endpoint.value.port));
    }
    if p.keepalive.Some? {
      flags := flags + PEER_HAS_PERSISTENT_KEEPALIVE;
      keepalive := KeepaliveSeconds(p.keepalive.value);
    }
    peer := PeerRecord(flags, 0, p.publicKey, presharedKey, keepalive, Zeros(2), endpoint, 0, 0, 0,
                       Uint32(|p.allowedIPs| + |p.operations|), Zeros(4));
  }

  /** The records of the operations, one behind the other. */
  function OpsBytes(ops: seq<AllowedIPConfig>): seq<byte> {
    if ops == [] then [] else OpsBytes(ops[..|ops| - 1]) + NetBytes(NetOf(ops[|ops| - 1]))
  }

  function PeersBytes(ps: seq<PeerConfig>): seq<byte> {
    if ps == [] then [] else PeersBytes(ps[..|ps| - 1]) + GroupBytes(RawGroup(GroupOf(ps[|ps| - 1])))
  }

  method AppendNets(b: ConfigBuilder, nets: seq<Cidr>)
    modifies b
    ensures b.buffer == old(b.buffer) + OpsBytes(AddAll(nets)) && b.capacity == old(b.capacity)
  {
    ghost var entries := AddAll(nets);
    for j := 0 to |nets|
      invariant b.buffer == old(b.buffer) + OpsBytes(entries[..j]) && b.capacity == old(b.capacity)
    {
      OpsBytesSnoc(old(b.buffer), entries, j);
      b.AppendAllowedIP(NetOf(AllowedIPConfig(nets[j], AllowedIPAdd)));
    }
    Whole(entries);
  }

  method AppendOperations(b: ConfigBuilder, ops: seq<AllowedIPConfig>)
    modifies b
    ensures b.buffer == old(b.buffer) + OpsBytes(ops) && b.capacity == old(b.capacity)
  {
    for j := 0 to |ops|
      invariant b.buffer == old(b.buffer) + OpsBytes(ops[..j]) && b.capacity == old(b.capacity)
    {
      OpsBytesSnoc(old(b.buffer), ops, j);
      b.AppendAllowedIP(NetOf(ops[j]));
    }
    Whole(ops);
  }

  /** The records of one peer, appended to the builder. */
  method AppendGroup(b: ConfigBuilder, p: PeerConfig)
    modifies b
    ensures b.buffer == old(b.buffer) + GroupBytes(RawGroup(GroupOf(p))) && b.capacity == old(b.capacity)
  {
    var peer := BuildPeer(p);
    b.AppendPeer(peer);
    AppendNets(b, p.allowedIPs);
    AppendOperations(b, p.operations);
    GroupAppended(old(b.buffer), p);
  }

  method AppendGroups(b: ConfigBuilder, peers: seq<PeerConfig>)
    modifies b
    ensures b.buffer == old(b.buffer) + PeersBytes(peers) && b.capacity == old(b.capacity)
  {
    for i := 0 to |peers|
      invariant b.buffer == old(b.buffer) + PeersBytes(peers[..i]) && b.capacity == old(b.capacity)
    {
      PeersBytesSnoc(old(b.buffer), peers, i);
      AppendGroup(b, peers[i]);
    }
    Whole(peers);
  }

  method SizeOf(cfg: Config) returns (preallocation: nat)
    ensures preallocation == Preallocation(cfg)
  {
    preallocation := 80 + 136 * |cfg.peers|;
    for i := 0 to |cfg.peers|
      invariant preallocation == 80 + 136 * |cfg.peers| + 24 * NetCount(cfg.peers[..i])
    {
      Snoc(cfg.peers, i);
      preallocation := preallocation + 24 * (|cfg.peers[i].allowedIPs| + |cfg.peers[i].operations|);
    }
    Whole(cfg.peers);
  }

  /** The buffer holds the records of the configuration and fills the memory set aside for it. */
  method BuildConfiguration(cfg: Config) returns (buffer: seq<byte>, size: nat)
    requires Preallocation(cfg) < 0x1_0000_0000
    ensures buffer == ConfigBuffer(cfg)
    ensures size == |buffer| == Preallocation(cfg)
  {
    var preallocation := SizeOf(cfg);
    var b := new ConfigBuilder();
    b.Preallocate(preallocation);
    var interface_ := BuildInterface(cfg);
    b.AppendInterface(interface_);
    FromNothing(Join(InterfaceFields(interface_)));
    AppendGroups(b, cfg.peers);
    AllAppended(cfg);
    assert |b.buffer| == b.capacity;
    buffer, size := b.buffer, |b.buffer|;
  }

  // ----- appending -----

  lemma {:induction false} Regrouped<T>(a: seq<T>, b: seq<T>, c: seq<T>)
    ensures (a + b) + c == a + (b + c)
  {
  }

  lemma {:induction false} FromNothing<T>(a: seq<T>)
    ensures [] + a == a
  {
  }

  lemma {:induction false} OpsBytesSnoc(before: seq<byte>, ops: seq<AllowedIPConfig>, j: nat)
    requires j < |ops|
    ensures before + OpsBytes(ops[..j + 1]) == before + OpsBytes(ops[..j]) + NetBytes(NetOf(ops[j]))
  {
    Snoc(ops, j);
  }

  lemma {:induction false} PeersBytesSnoc(before: seq<byte>, ps: seq<PeerConfig>, i: nat)
    requires i < |ps|
    ensures before + PeersBytes(ps[..i + 1]) == before + PeersBytes(ps[..i]) + GroupBytes(RawGroup(GroupOf(ps[i])))
  {
    hide GroupBytes, RawGroup, GroupOf;
    Snoc(ps, i);
  }

  lemma {:induction false} OpsBytesConcat(a: seq<AllowedIPConfig>, b: seq<AllowedIPConfig>)
    ensures OpsBytes(a + b) == OpsBytes(a) + OpsBytes(b)
    decreases |b|
  {
    if b == [] {
      assert a + b == a;
    } else {
      var init, last := b[..|b| - 1], b[|b| - 1];
      assert (a + b)[..|a + b| - 1] == a + init;
      OpsBytesConcat(a, init);
      Regrouped(OpsBytes(a), OpsBytes(init), NetBytes(NetOf(last)));
    }
  }

  lemma {:induction false} OpsBytesAre(ops: seq<AllowedIPConfig>)
    ensures OpsBytes(ops) == Join(NetsBytes(NetsOf(ops)))
  {
    if ops == [] {
    } else {
      var rs, bytes := NetsOf(ops), NetsBytes(NetsOf(ops));
      OpsBytesAre(ops[..|ops| - 1]);
      assert rs[..|rs| - 1] == NetsOf(ops[..|ops| - 1]);
      assert bytes[..|bytes| - 1] == NetsBytes(rs[..|rs| - 1]);
    }
  }

  lemma {:induction false} PeersBytesAre(ps: seq<PeerConfig>)
    ensures PeersBytes(ps) == GroupsBytes(RawGroups(GroupsOf(ps)))
  {
    if ps == [] {
    } else {
      var gs, raw := GroupsOf(ps), RawGroups(GroupsOf(ps));
      PeersBytesAre(ps[..|ps| - 1]);
      assert gs[..|gs| - 1] == GroupsOf(ps[..|ps| - 1]);
      assert raw[..|raw| - 1] == RawGroups(gs[..|gs| - 1]);
    }
  }

  lemma {:induction false} GroupAppended(before: seq<byte>, p: PeerConfig)
    ensures before + Join(PeerFields(PeerOf(p))) + OpsBytes(AddAll(p.allowedIPs)) + OpsBytes(p.operations)
         == before + GroupBytes(RawGroup(GroupOf(p)))
  {
    var peer, nets, ops := Join(PeerFields(PeerOf(p))), OpsBytes(AddAll(p.allowedIPs)), OpsBytes(p.operations);
    OpsBytesConcat(AddAll(p.allowedIPs), p.operations);
    OpsBytesAre(Entries(p));
    Regrouped(before + peer, nets, ops);
    Regrouped(before, peer, nets + ops);
  }

  // ----- the length -----

  lemma {:induction false} GroupsOfAt(ps: seq<PeerConfig>, i: nat)
    requires i < |ps|
    ensures GroupsOf(ps)[i] == GroupOf(ps[i])
  {
    if i == |ps| - 1 {
    } else {
      GroupsOfAt(ps[..|ps| - 1], i);
    }
  }

  lemma {:induction false} WalkEnd(ps: seq<PeerConfig>)
    ensures PeerAt(RawGroups(GroupsOf(ps)), SIZE, |ps|) == 80 + 136 * |ps| + 24 * NetCount(ps)
  {
    if ps == [] {
    } else {
      var init, p, gs := ps[..|ps| - 1], ps[|ps| - 1], RawGroups(GroupsOf(ps));
      WalkEnd(init);
      assert GroupsOf(ps)[..|ps| - 1] == GroupsOf(init);
      assert gs[..|gs| - 1] == RawGroups(GroupsOf(init));
      if init != [] {
        PeerAtInit(gs, |init|);
      }
      SpanIsProduct(|Entries(p)|, SIZE);
    }
  }

  lemma {:induction false} PeerAtInit(gs: seq<Group>, i: nat)
    requires i < |gs|
    ensures PeerAt(gs[..|gs| - 1], SIZE, i) == PeerAt(gs, SIZE, i)
  {
    PeerAtPrefix(gs, SIZE, i);
  }

  /** The walk over all records ends at the length of the buffer, which is the size set aside. */
  lemma {:induction false} BuiltLength(cfg: Config)
    ensures |ConfigBuffer(cfg)| == PeerAt(RawGroups(GroupsOf(cfg.peers)), SIZE, |cfg.peers|) == Preallocation(cfg)
  {
    BufferSized(InterfaceOf(cfg), GroupsOf(cfg.peers));
    BufferLength(Join(InterfaceFields(InterfaceOf(cfg))), RawGroups(GroupsOf(cfg.peers)), SIZE);
    WalkEnd(cfg.peers);
  }

  lemma {:induction false} AllAppended(cfg: Config)
    ensures Join(InterfaceFields(InterfaceOf(cfg))) + PeersBytes(cfg.peers) == ConfigBuffer(cfg)
    ensures |ConfigBuffer(cfg)| == Preallocation(cfg)
  {
    PeersBytesAre(cfg.peers);
    BuiltLength(cfg);
  }

  lemma {:induction false} InRange(cfg: Config)
    ensures InterfaceInRange(InterfaceOf(cfg))
  {
  }

  lemma {:induction false} PeerOfInRange(p: PeerConfig)
    ensures PeerInRange(PeerOf(p))
  {
  }
}
