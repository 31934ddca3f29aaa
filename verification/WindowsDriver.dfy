/**
 * What the Windows driver does with a buffer handed to it: it follows the counts and bits it
 * finds in the bytes. The buffer built from a configuration makes it do what the configuration means.
 */
module WindowsDriver {
  import opened Wrappers
  import opened WgTypes
  import opened DeviceModel
  import opened Layout
  import opened Records
  import opened WindowsRecords
  import opened Windows
  import opened WindowsParse

  // ----- the driver, by offsets and bits -----

  /** `n` bytes from `at` on; what lies behind the buffer reads as zeros. */
  function Slice(b: seq<byte>, at: nat, n: nat): (r: seq<byte>)
    ensures |r| == n
  {
    if at + n <= |b| then b[at..at + n] else Zeros(n)
  }

  /** The network of an allowed-IP record. */
  function RecordNet(r: seq<byte>): Option<Cidr>
    requires |r| == 24
  {
    var family, length := Uint(r[16..18]), r[18];
    if family == 2 && length <= 32 then Some(Cidr4(r[0..4], length))
    else if family == 23 && length <= 128 then Some(Cidr6(r[0..16], length))
    else None
  }

  /** Its lowest flag takes the network away from the peer. */
  function TakeNet(table: map<Cidr, Key>, k: Key, r: seq<byte>): map<Cidr, Key>
    requires |r| == 24
  {
    match RecordNet(r)
    case None => table
    case Some(net) =>
      var c := Masked(net);
      if !Has(Uint(r[20..24]), 1) then table[c := k]
      else if c in table && table[c] == k then table - {c}
      else table
  }

  /** The first `n` allowed-IP records from `at` on. */
  function TakeNets(table: map<Cidr, Key>, k: Key, b: seq<byte>, at: nat, n: nat): map<Cidr, Key>
  {
    if n == 0 then table else TakeNet(TakeNets(table, k, b, at, n - 1), k, Slice(b, at + 24 * (n - 1), 24))
  }

  function RecordEndpoint(r: seq<byte>): Option<UDPAddr>
    requires |r| == 136
  {
    var family, high: int, low: int := Uint(r[76..78]), r[78], r[79];
    var port := 256 * high + low;
    if family == 2 then Some(UDPAddr(IP4(r[80..84]), port, ""))
    else if family == 23 then Some(UDPAddr(IP6(r[84..100]), port, ""))
    else None
  }

  /** The settings of a peer record over those the peer has. */
  function TakeSettings(was: PeerState, r: seq<byte>): PeerState
    requires |r| == 136
  {
    var flags := Uint(r[0..4]);
    PeerState(
      if Has(flags, 2) then r[40..72] else was.presharedKey,
      if Has(flags, 8) then RecordEndpoint(r) else was.endpoint,
      if Has(flags, 4) then Uint(r[72..74]) else was.keepalive)
  }

  /** The peer record at `at`, with the allowed-IP records behind it. */
  function TakePeer(s: State, b: seq<byte>, at: nat): State {
    var r := Slice(b, at, 136);
    var flags, k: Key, count := Uint(r[0..4]), r[8..40], Uint(r[128..132]);
    if Has(flags, 64) then
      if k in s.peers then RemovePeer(s, k) else s
    else if Has(flags, 128) && k !in s.peers then s
    else
      var was := if k in s.peers then s.peers[k] else PeerState(ZeroKey(), None, 0);
      var kept := if Has(flags, 32) then DropOwner(s.table, k) else s.table;
      s.(peers := s.peers[k := TakeSettings(was, r)], table := TakeNets(kept, k, b, at + 136, count))
  }

  /** Where peer record `i` lies, by the counts in the records before it. */
  function PeerOffset(b: seq<byte>, i: nat): nat
  {
    if i == 0 then 80
    else
      var at := PeerOffset(b, i - 1);
      at + 136 + 24 * Uint(Slice(b, at, 136)[128..132])
  }

  function TakePeers(s: State, b: seq<byte>, n: nat): State
  {
    if n == 0 then s else TakePeer(TakePeers(s, b, n - 1), b, PeerOffset(b, n - 1))
  }

  /** The device fields in the first record. */
  function TakeInterface(s: State, b: seq<byte>): State {
    var r := Slice(b, 0, 80);
    var flags := Uint(r[0..4]);
    State(
      if Has(flags, 2) then r[6..38] else s.privateKey,
      if Has(flags, 4) then Uint(r[4..6]) else s.listenPort,
      s.firewallMark,
      if Has(flags, 8) then map[] else s.peers,
      if Has(flags, 8) then map[] else s.table)
  }

  /** The device after the driver has taken the buffer. */
  function Driven(s: State, b: seq<byte>): State {
    TakePeers(TakeInterface(s, b), b, Uint(Slice(b, 0, 80)[72..76]))
  }

  // ----- bits -----

  lemma {:induction false} HighDigits(f: nat, low: nat, r: nat, m: nat, u: nat)
    requires low < 32 && r <= 1 && m <= 1 && u <= 1 && f == low + 32 * r + 64 * m + 128 * u
    ensures f / 32 % 2 == r && f / 64 % 2 == m && f / 128 % 2 == u
  {
    assert f / 32 == r + 2 * m + 4 * u;
    assert f / 64 == m + 2 * u;
    assert f / 128 == u;
    Half(f / 32, m + 2 * u, r);
    Half(f / 64, u, m);
  }

  /** The bits that say what is to be done with a peer. */
  lemma {:induction false} PeerBits(p: PeerConfig)
    ensures var f := PeerFlags(p);
            && Has(f, 1) && (Has(f, 2) <==> p.presharedKey.Some?) && (Has(f, 4) <==> p.keepalive.Some?)
            && (Has(f, 8) <==> p.endpoint.Some?) && !Has(f, 16)
            && (Has(f, 32) <==> p.replaceAllowedIPs) && (Has(f, 64) <==> p.remove) && (Has(f, 128) <==> p.updateOnly)
  {
    var psk, keepalive, endpoint := Bit(p.presharedKey.Some?, 1), Bit(p.keepalive.Some?, 1),
      Bit(p.endpoint.Some?, 1);
    var replace, remove, update := Bit(p.replaceAllowedIPs, 1), Bit(p.remove, 1),
      Bit(p.updateOnly, 1);
    var f := PeerFlags(p);
    assert f == 1 + 2 * psk + 4 * keepalive + 8 * endpoint + 32 * (replace + 2 * remove + 4 * update);
    Parities(psk, keepalive, endpoint, replace + 2 * remove + 4 * update, f);
    HighDigits(f, 1 + 2 * psk + 4 * keepalive + 8 * endpoint, replace, remove, update);
  }

  lemma {:induction false} InterfaceBits(cfg: Config)
    ensures var f := InterfaceFlags(cfg);
            && (Has(f, 2) <==> cfg.privateKey.Some?) && (Has(f, 4) <==> cfg.listenPort.Some?)
            && (Has(f, 8) <==> cfg.replacePeers)
  {
  }

  // ----- records -----

  lemma {:induction false} NetTaken(table: map<Cidr, Key>, k: Key, op: AllowedIPConfig)
    requires !MappedNet(op.net)
    ensures |NetBytes(NetOf(op))| == 24 && TakeNet(table, k, NetBytes(NetOf(op))) == ApplyOp(table, k, op)
  {
    hide Masked, Mapped;
    var rec := NetOf(op);
    var r := NetBytes(rec);
    NetParses(op);
    NetRoundTrip(rec);
    assert ReadNet(r) == rec;
    NetIsRead(op, r);
  }

  lemma {:induction false} NetIsRead(op: AllowedIPConfig, r: seq<byte>)
    requires !MappedNet(op.net) && |r| == 24 && ReadNet(r) == NetOf(op)
    ensures RecordNet(r) == Some(op.net)
    ensures Has(Uint(r[20..24]), 1) <==> op.operation == AllowedIPRemove
  {
    hide Mapped, Uint;
    LengthByte(r);
    match op.net
    case Cidr4(a, n) =>
      assert (a + Zeros(12))[0..4] == a;
      assert r[0..16][0..4] == r[0..4];
    case Cidr6(_, _) =>
  }

  lemma {:induction false} LengthByte(r: seq<byte>)
    requires |r| == 24
    ensures Uint(r[18..19]) == r[18]
  {
    var bs := r[18..19];
    assert UintFrom(bs, 1) == 0;
    assert Uint(bs) == bs[0];
  }

  /** What is left of a configuration by the records of the driver: neither the mark nor zones. */
  function ForDriver(cfg: Config): Config {
    cfg.(firewallMark := None, peers := PeersForDriver(cfg.peers))
  }

  function PeerForDriver(p: PeerConfig): PeerConfig {
    p.(endpoint := if p.endpoint.Some? then Some(SeenEndpoint(p.endpoint.value)) else None)
  }

  function PeersForDriver(ps: seq<PeerConfig>): (r: seq<PeerConfig>)
    ensures |r| == |ps|
  {
    if ps == [] then [] else PeersForDriver(ps[..|ps| - 1]) + [PeerForDriver(ps[|ps| - 1])]
  }

  /** A record found in a buffer. */
  lemma {:induction false} HeldIsSlice(b: seq<byte>, at: nat, part: seq<byte>)
    requires Holds(b, at, part)
    ensures Slice(b, at, |part|) == part
  {
    HeldSlice(b, at, part);
  }

  lemma {:induction false} EndpointIsRead(e: UDPAddr, r: seq<byte>)
    requires |r| == 136 && r[76..104] == SetIP(e.ip, Uint16(e.port))
    ensures RecordEndpoint(r) == Some(SeenEndpoint(e))
  {
    hide Unmap, Uint;
    var sock: Bytes28 := SetIP(e.ip, Uint16(e.port));
    SockaddrRoundTrip(e.ip, Uint16(e.port));
    assert r[76..104][0..2] == r[76..78] && r[76..104][4..8] == r[80..84] && r[76..104][8..24] == r[84..100];
    assert r[76..104][2] == r[78] && r[76..104][3] == r[79];
  }

  lemma {:induction false} SettingsTaken(was: PeerState, p: PeerConfig, r: seq<byte>)
    requires |r| == 136 && ReadPeer(r) == PeerOf(p)
    ensures TakeSettings(was, r) == Settings(was, PeerForDriver(p))
  {
    hide Has, PeerFlags, Uint, SetIP, SeenEndpoint, RecordEndpoint, KeepaliveSeconds, Uint16;
    PeerBits(p);
    if p.endpoint.Some? {
      EndpointIsRead(p.endpoint.value, r);
    }
  }

  lemma {:induction false} NetsTaken(table: map<Cidr, Key>, k: Key, b: seq<byte>, at: nat, ops: seq<AllowedIPConfig>,
      n: nat)
    requires n <= |ops| && NetsHeld(b, at, NetsOf(ops)) && forall j :: 0 <= j < |ops| ==> !MappedNet(ops[j].net)
    ensures TakeNets(table, k, b, at, n) == ApplyOps(table, k, ops[..n])
  {
    hide TakeNet, ApplyOp, NetOf, NetBytes, MappedNet, Holds, Slice;
    if n == 0 {
    } else {
      var op := ops[n - 1];
      NetsTaken(table, k, b, at, ops, n - 1);
      NetsOfAt(ops, n - 1);
      SpanIsProduct(n - 1, SIZE);
      NetTaken(ApplyOps(table, k, ops[..n - 1]), k, op);
      assert Holds(b, at + Span(n - 1, SIZE), NetBytes(NetsOf(ops)[n - 1]));
      HeldIsSlice(b, at + 24 * (n - 1), NetBytes(NetOf(op)));
      assert ops[..n][..n - 1] == ops[..n - 1];
    }
  }

  /** The driver does with the records of an entry what the entry means. */
  lemma {:induction false} PeerTaken(s: State, p: PeerConfig, b: seq<byte>, at: nat)
    requires GroupHeld(b, at, GroupOf(p)) && |Entries(p)| < 0x1_0000_0000
    requires forall j :: 0 <= j < |Entries(p)| ==> !MappedNet(Entries(p)[j].net)
    ensures TakePeer(s, b, at) == ApplyPeer(s, PeerForDriver(p))
    ensures Uint(Slice(b, at, 136)[128..132]) == |Entries(p)|
  {
    hide Has, PeerFlags, Uint, TakeSettings, Settings, Slice, NetsOf, NetsHeld, Holds, PeerFields, SetIP, MappedNet,
      KeepaliveSeconds, ApplyOps, TakeNets;
    PeerOfInRange(p);
    PeerRoundTrip(PeerOf(p));
    var r := Join(PeerFields(PeerOf(p)));
    HeldIsSlice(b, at, r);
    PeerBits(p);
    SettingsTaken(Current(s, p.publicKey), p, r);
    assert Entries(PeerForDriver(p)) == Entries(p);
    var k, n := p.publicKey, |Entries(p)|;
    NetsTaken(s.table, k, b, at + 136, Entries(p), n);
    NetsTaken(DropOwner(s.table, k), k, b, at + 136, Entries(p), n);
    assert Entries(p)[..n] == Entries(p);
  }

  // ----- the buffer -----

  lemma {:induction false} EntryHeld(cfg: Config, i: nat)
    requires i < |cfg.peers|
    ensures GroupHeld(ConfigBuffer(cfg), Cursor(GroupsOf(cfg.peers), i), GroupOf(cfg.peers[i]))
  {
    hide GroupHeld, GroupOf, Cursor;
    GroupIsHeld(InterfaceOf(cfg), GroupsOf(cfg.peers), i);
    GroupsOfAt(cfg.peers, i);
  }

  lemma {:induction false} NoneMapped(p: PeerConfig)
    requires NoMappedNet(NetsIn(p))
    ensures forall j :: 0 <= j < |Entries(p)| ==> !MappedNet(Entries(p)[j].net)
  {
    hide MappedNet, Entries, NetsIn;
    forall j | 0 <= j < |Entries(p)|
      ensures !MappedNet(Entries(p)[j].net)
    {
      NetsInAt(p, j);
    }
  }

  /** The entry at a position of the buffer that holds it. */
  lemma {:induction false} EntryTaken(s: State, cfg: Config, i: nat)
    requires Preallocation(cfg) < 0x1_0000_0000 && NoMappedNets(cfg.peers) && i < |cfg.peers|
    ensures var b, at := ConfigBuffer(cfg), Cursor(GroupsOf(cfg.peers), i);
            && TakePeer(s, b, at) == ApplyPeer(s, PeerForDriver(cfg.peers[i]))
            && at + 136 + 24 * Uint(Slice(b, at, 136)[128..132]) == Cursor(GroupsOf(cfg.peers), i + 1)
  {
    hide GroupHeld, GroupOf, ConfigBuffer, TakePeer, ApplyPeer, PeerForDriver, Entries, Slice, Uint, NoMappedNet,
      NetsIn, MappedNet, Preallocation;
    PreallocationBounds(cfg);
    EntriesBelow(cfg.peers, i);
    EntryHeld(cfg, i);
    NoneMapped(cfg.peers[i]);
    PeerTaken(s, cfg.peers[i], ConfigBuffer(cfg), Cursor(GroupsOf(cfg.peers), i));
    GroupsOfAt(cfg.peers, i);
    GroupLength(cfg.peers[i]);
  }

  lemma {:induction false} GroupLength(p: PeerConfig)
    ensures |GroupOf(p).nets| == |Entries(p)|
  {
  }

  lemma {:induction false} OffsetsAreCursors(cfg: Config, i: nat)
    requires Preallocation(cfg) < 0x1_0000_0000 && NoMappedNets(cfg.peers) && i <= |cfg.peers|
    ensures PeerOffset(ConfigBuffer(cfg), i) == Cursor(GroupsOf(cfg.peers), i)
  {
    hide ConfigBuffer, Slice, Uint, NoMappedNets, Preallocation, GroupsOf, TakePeer, ApplyPeer, PeerForDriver;
    if i == 0 {
    } else {
      OffsetsAreCursors(cfg, i - 1);
      EntryTaken(State(ZeroKey(), 0, 0, map[], map[]), cfg, i - 1);
    }
  }

  lemma {:induction false} PeersTaken(s: State, cfg: Config, n: nat)
    requires Preallocation(cfg) < 0x1_0000_0000 && NoMappedNets(cfg.peers) && n <= |cfg.peers|
    ensures TakePeers(s, ConfigBuffer(cfg), n) == ApplyPeers(s, PeersForDriver(cfg.peers[..n]))
  {
    hide ConfigBuffer, Slice, Uint, NoMappedNets, Preallocation, GroupsOf, TakePeer, ApplyPeer, PeerForDriver,
      PeerOffset, Cursor;
    if n == 0 {
    } else {
      PeersTaken(s, cfg, n - 1);
      OffsetsAreCursors(cfg, n - 1);
      EntryTaken(ApplyPeers(s, PeersForDriver(cfg.peers[..n - 1])), cfg, n - 1);
      var ps, rs := cfg.peers[..n], PeersForDriver(cfg.peers[..n]);
      assert ps[..n - 1] == cfg.peers[..n - 1] && ps[n - 1] == cfg.peers[n - 1];
      assert rs[..n - 1] == PeersForDriver(cfg.peers[..n - 1]) && rs[n - 1] == PeerForDriver(cfg.peers[n - 1]);
    }
  }

  lemma {:induction false} InterfaceTaken(s: State, cfg: Config)
    requires Preallocation(cfg) < 0x1_0000_0000
    ensures TakeInterface(s, ConfigBuffer(cfg)) == ApplyHeader(s, ForDriver(cfg))
    ensures Uint(Slice(ConfigBuffer(cfg), 0, 80)[72..76]) == |cfg.peers|
  {
    hide Has, InterfaceFlags, Uint, Holds, InterfaceFields, BufferOf, PeersForDriver, Slice, NetCount, Uint16;
    var rec := InterfaceOf(cfg);
    var r := Layout.Join(InterfaceFields(rec));
    InterfaceIsHeld(rec, GroupsOf(cfg.peers));
    InRange(cfg);
    InterfaceRoundTrip(rec);
    HeldIsSlice(ConfigBuffer(cfg), 0, r);
    InterfaceBits(cfg);
    PreallocationBounds(cfg);
  }

  /**
   * Handed the buffer of a configuration without IPv4-mapped networks, the driver does to any
   * device what the configuration means, but for the mark and the zones of endpoints.
   */
  lemma {:induction false} DriverObeys(s: State, cfg: Config)
    requires Preallocation(cfg) < 0x1_0000_0000 && NoMappedNets(cfg.peers)
    ensures Driven(s, ConfigBuffer(cfg)) == ApplyConfig(s, ForDriver(cfg))
  {
    hide ConfigBuffer, Slice, Uint, NoMappedNets, Preallocation, TakeInterface, ApplyHeader, TakePeers, ApplyPeers,
      PeersForDriver;
    InterfaceTaken(s, cfg);
    PeersTaken(TakeInterface(s, ConfigBuffer(cfg)), cfg, |cfg.peers|);
    assert cfg.peers[..|cfg.peers|] == cfg.peers;
  }

  /** Nothing in the configuration is lost on the way to the driver. */
  ghost predicate Expressible(cfg: Config) {
    && cfg.firewallMark.None?
    && forall i :: 0 <= i < |cfg.peers| && cfg.peers[i].endpoint.Some? ==> Carried(cfg.peers[i].endpoint.value)
  }

  predicate Carried(e: UDPAddr) {
    e.zone == "" && 0 <= e.port <= 65535 && Unmap(e.ip) == e.ip
  }

  lemma {:induction false} AllCarried(ps: seq<PeerConfig>)
    requires forall i :: 0 <= i < |ps| && ps[i].endpoint.Some? ==> Carried(ps[i].endpoint.value)
    ensures PeersForDriver(ps) == ps
  {
    hide Unmap;
    if ps == [] {
    } else {
      AllCarried(ps[..|ps| - 1]);
      assert PeerForDriver(ps[|ps| - 1]) == ps[|ps| - 1];
    }
  }

  /** For such a configuration the driver does exactly what it means. */
  lemma {:induction false} DriverObeysExactly(s: State, cfg: Config)
    requires Preallocation(cfg) < 0x1_0000_0000 && NoMappedNets(cfg.peers) && Expressible(cfg)
    ensures Driven(s, ConfigBuffer(cfg)) == ApplyConfig(s, cfg)
  {
    hide Driven, ConfigBuffer, ApplyConfig, NoMappedNets, Preallocation, PeersForDriver, Carried;
    DriverObeys(s, cfg);
    AllCarried(cfg.peers);
    assert ForDriver(cfg) == cfg;
  }
}
