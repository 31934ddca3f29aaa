/**
 * The device dump of the OpenBSD kernel: parseDevice of internal/wgopenbsd/client_openbsd.go
 * on the record sizes of amd64. The dump is walked by the counts found in it.
 */
module OpenBSD {
  import opened Wrappers
  import opened WgTypes
  import opened Seqs
  import opened Layout
  import opened Records

  const SIZE := Sizes(0x50, 0x90, 0x18)

  const INTERFACE_HAS_PUBLIC := 1
  const INTERFACE_HAS_PRIVATE := 2
  const INTERFACE_HAS_PORT := 4
  const INTERFACE_HAS_RTABLE := 8

  const PEER_HAS_PUBLIC := 1
  const PEER_HAS_PSK := 2
  const PEER_HAS_PKA := 4
  const PEER_HAS_ENDPOINT := 8

  const AF_INET := 2
  const AF_INET6 := 24

  // ----- records -----

  function PeerCount(interface_: seq<byte>): nat
    requires |interface_| == SIZE.interface_
  {
    Uint(interface_[72..80])
  }

  function NetCount(peer: seq<byte>): nat
    requires |peer| == SIZE.peer
  {
    Uint(peer[136..144])
  }

  predicate KnownFamily(net: seq<byte>)
    requires |net| == SIZE.net
  {
    net[0] == AF_INET || net[0] == AF_INET6
  }

  function NetValue(net: seq<byte>): ParsedNet
    requires |net| == SIZE.net && KnownFamily(net)
  {
    if net[0] == AF_INET then ParsedNet4(net[8..12], Int(net[4..8])) else ParsedNet6(net[8..24], Int(net[4..8]))
  }

  /** A port is stored high byte first; the family is the second byte. */
  function EndpointValue(ep: seq<byte>): Option<UDPAddr>
    requires |ep| == 28
  {
    var high: int, low: int := ep[2], ep[3];
    var port := high * 256 + low;
    if ep[1] == AF_INET then Some(UDPAddr(IP4(ep[4..8]), port, ""))
    else if ep[1] == AF_INET6 then Some(UDPAddr(IP6(ep[8..24]), port, ""))
    else None
  }

  predicate HasEndpoint(peer: seq<byte>)
    requires |peer| == SIZE.peer
  {
    Has(Uint(peer[0..4]), PEER_HAS_ENDPOINT)
  }

  function PeerValue(peer: seq<byte>): Peer
    requires |peer| == SIZE.peer
  {
    var flags := Uint(peer[0..4]);
    var sec, nsec := Int(peer[120..128]), Int(peer[128..136]);
    Peer(
      None,
      if Has(flags, PEER_HAS_PUBLIC) then peer[8..40] else ZeroKey(),
      if Has(flags, PEER_HAS_PSK) then peer[40..72] else ZeroKey(), Has(flags, PEER_HAS_PSK),
      if HasEndpoint(peer) then EndpointValue(peer[76..104]) else None,
      if Has(flags, PEER_HAS_PKA) then Uint(peer[72..74]) * SECOND else 0, Has(flags, PEER_HAS_PKA),
      if sec > 0 && nsec > 0 then Some(UnixTime(sec, nsec)) else None,
      Int(peer[112..120]), Int(peer[104..112]), [], Int(peer[4..8]))
  }

  function HeaderValue(name: string, interface_: seq<byte>): Device
    requires |interface_| == SIZE.interface_
  {
    var flags: nat := interface_[0];
    Device(
      name,
      if Has(flags, INTERFACE_HAS_PRIVATE) then interface_[40..72] else ZeroKey(), Has(flags, INTERFACE_HAS_PRIVATE),
      if Has(flags, INTERFACE_HAS_PUBLIC) then interface_[8..40] else ZeroKey(), Has(flags, INTERFACE_HAS_PUBLIC),
      if Has(flags, INTERFACE_HAS_PORT) then Uint(interface_[2..4]) else 0, Has(flags, INTERFACE_HAS_PORT),
      if Has(flags, INTERFACE_HAS_RTABLE) then Int(interface_[4..8]) else 0, Has(flags, INTERFACE_HAS_RTABLE), [])
  }

  // ----- the dump -----

  ghost predicate ValidGroup(g: Group) {
    SizedGroup(g, SIZE) && NetCount(g.peer) == |g.nets|
  }

  /** A dump whose counts are those of the records behind it. */
  ghost predicate ValidDump(interface_: seq<byte>, gs: seq<Group>) {
    && |interface_| == SIZE.interface_ && PeerCount(interface_) == |gs|
    && forall i :: 0 <= i < |gs| ==> ValidGroup(gs[i])
  }

  lemma {:induction false} ValidIsSized(interface_: seq<byte>, gs: seq<Group>)
    requires ValidDump(interface_, gs)
    ensures Sized(interface_, gs, SIZE)
  {
    hide NetCount;
    forall i | 0 <= i < |gs|
      ensures SizedGroup(gs[i], SIZE)
    {
      assert ValidGroup(gs[i]);
    }
  }

  /** The networks of some records, or None when one of them has an unknown family, which panics. */
  ghost function NetValues(nets: seq<seq<byte>>): (r: Option<seq<ParsedNet>>)
    requires forall j :: 0 <= j < |nets| ==> |nets[j]| == SIZE.net
    ensures r.Some? ==> |r.value| == |nets|
  {
    if nets == [] then Some([])
    else
      var init, last := NetValues(nets[..|nets| - 1]), nets[|nets| - 1];
      if init.None? || !KnownFamily(last) then None else Some(init.value + [NetValue(last)])
  }

  ghost function GroupValue(g: Group): Option<ParsedPeer>
    requires ValidGroup(g)
  {
    var nets := NetValues(g.nets);
    if nets.None? then None else Some(ParsedPeer(PeerValue(g.peer), HasEndpoint(g.peer), nets.value))
  }

  ghost function PeersOfGroups(gs: seq<Group>): (r: Option<seq<ParsedPeer>>)
    requires forall i :: 0 <= i < |gs| ==> ValidGroup(gs[i])
    ensures r.Some? ==> |r.value| == |gs|
  {
    if gs == [] then Some([])
    else
      assert ValidGroup(gs[|gs| - 1]);
      var init, last := PeersOfGroups(gs[..|gs| - 1]), GroupValue(gs[|gs| - 1]);
      if init.None? || last.None? then None else Some(init.value + [last.value])
  }

  ghost predicate KnownFamilies(nets: seq<seq<byte>>)
    requires forall j :: 0 <= j < |nets| ==> |nets[j]| == SIZE.net
  {
    forall j :: 0 <= j < |nets| ==> KnownFamily(nets[j])
  }

  /** All records of a peer are read, in order, exactly when their families are known. */
  lemma {:induction false} NetValuesExactly(nets: seq<seq<byte>>)
    requires forall j :: 0 <= j < |nets| ==> |nets[j]| == SIZE.net
    ensures NetValues(nets).Some? <==> KnownFamilies(nets)
    ensures NetValues(nets).Some? ==>
              forall j :: 0 <= j < |nets| ==> KnownFamily(nets[j]) && NetValues(nets).value[j] == NetValue(nets[j])
  {
    hide KnownFamily, NetValue;
    if nets == [] {
    } else {
      var init := nets[..|nets| - 1];
      NetValuesExactly(init);
      assert forall j :: 0 <= j < |init| ==> init[j] == nets[j];
    }
  }

  /** So is a whole dump, and each peer has the values of its own records. */
  lemma {:induction false} PeersExactly(gs: seq<Group>)
    requires forall i :: 0 <= i < |gs| ==> ValidGroup(gs[i])
    ensures PeersOfGroups(gs).Some? <==> forall i :: 0 <= i < |gs| ==> KnownFamilies(gs[i].nets)
    ensures PeersOfGroups(gs).Some? ==> forall i :: 0 <= i < |gs| ==>
              && NetValues(gs[i].nets).Some?
              && PeersOfGroups(gs).value[i]
                == ParsedPeer(PeerValue(gs[i].peer), HasEndpoint(gs[i].peer), NetValues(gs[i].nets).value)
  {
    hide KnownFamilies, NetValues, PeerValue, NetCount;
    if gs == [] {
    } else {
      var init := gs[..|gs| - 1];
      PeersExactly(init);
      NetValuesExactly(gs[|gs| - 1].nets);
      assert forall i :: 0 <= i < |init| ==> init[i] == gs[i];
    }
  }

  /** Reading a record through a pointer; the record lies inside the dump. */
  method ReadRecord(buffer: seq<byte>, at: nat, length: nat, ghost record: seq<byte>) returns (r: seq<byte>)
    requires Holds(buffer, at, record) && length == |record|
    ensures r == record
  {
    HeldSlice(buffer, at, record);
    r := buffer[at..at + length];
  }

  method ParseNets(buffer: seq<byte>, peer: nat, count: nat, ghost interface_: seq<byte>, ghost gs: seq<Group>,
      ghost i: nat)
    returns (r: Option<seq<ParsedNet>>)
    requires ValidDump(interface_, gs) && i < |gs| && count == |gs[i].nets|
    requires buffer == Bytes(interface_, gs) && peer == PeerAt(gs, SIZE, i)
    ensures ValidGroup(gs[i]) && r == NetValues(gs[i].nets)
  {
    hide KnownFamily, NetValue, Bytes, NetCount, PeerCount, KnownFamilies;
    ValidIsSized(interface_, gs);
    ghost var records := gs[i].nets;
    assert ValidGroup(gs[i]);
    var nets := [];
    assert records[..0] == [];
    for j := 0 to count
      invariant NetValues(records[..j]) == Some(nets)
    {
      var aip := peer + SIZE.peer + j * SIZE.net;
      SpanIsProduct(j, SIZE);
      NetRecordAt(interface_, gs, SIZE, i, j);
      var record := ReadRecord(buffer, aip, SIZE.net, records[j]);
      Snoc(records, j);
      if !KnownFamily(record) {
        Panics(records, j);
        return None;
      }
      nets := nets + [NetValue(record)];
    }
    Whole(records);
    r := Some(nets);
  }

  lemma {:induction false} Panics(nets: seq<seq<byte>>, j: nat)
    requires forall i :: 0 <= i < |nets| ==> |nets[i]| == SIZE.net
    requires j < |nets| && !KnownFamily(nets[j])
    ensures NetValues(nets).None?
  {
    hide KnownFamily;
    NetValuesExactly(nets);
  }

  /** The walk reads only records of the dump, and gives their values in order, or panics. */
  method ParseDevice(name: string, buffer: seq<byte>, ghost interface_: seq<byte>, ghost gs: seq<Group>)
    returns (r: Option<ParsedDevice>)
    requires ValidDump(interface_, gs) && buffer == Bytes(interface_, gs)
    ensures r.Some? <==> PeersOfGroups(gs).Some?
    ensures r.Some? ==> r.value == ParsedDevice(HeaderValue(name, interface_), PeersOfGroups(gs).value)
  {
    hide Bytes, NetCount, HeaderValue, PeerValue, NetValues, Sized, KnownFamilies;
    ValidIsSized(interface_, gs);
    InterfaceAt(interface_, gs, SIZE);
    var ifio := ReadRecord(buffer, 0, SIZE.interface_, interface_);
    var d := HeaderValue(name, ifio);
    if PeerCount(ifio) == 0 {
      return Some(ParsedDevice(d, []));
    }
    var peer := SIZE.interface_;
    var peers := [];
    assert gs[..0] == [];
    for i := 0 to PeerCount(ifio)
      invariant peer == PeerAt(gs, SIZE, i)
      invariant PeersOfGroups(gs[..i]) == Some(peers)
    {
      Snoc(gs, i);
      var parsed, next := ParsePeer(buffer, peer, interface_, gs, i);
      if parsed.None? {
        PeersExactly(gs);
        NetValuesExactly(gs[i].nets);
        return None;
      }
      peers := peers + [parsed.value];
      peer := next;
    }
    Whole(gs);
    r := Some(ParsedDevice(d, peers));
  }

  /** One turn of the loop: the peer at the pointer, and where the next one is. */
  method ParsePeer(buffer: seq<byte>, peer: nat, ghost interface_: seq<byte>, ghost gs: seq<Group>, ghost i: nat)
    returns (r: Option<ParsedPeer>, next: nat)
    requires ValidDump(interface_, gs) && i < |gs|
    requires buffer == Bytes(interface_, gs) && peer == PeerAt(gs, SIZE, i)
    ensures ValidGroup(gs[i]) && r == GroupValue(gs[i]) && next == PeerAt(gs, SIZE, i + 1)
  {
    hide Bytes, NetCount, PeerCount, PeerValue, NetValues, HasEndpoint;
    ValidIsSized(interface_, gs);
    PeerRecordAt(interface_, gs, SIZE, i);
    assert ValidGroup(gs[i]);
    var record := ReadRecord(buffer, peer, SIZE.peer, gs[i].peer);
    var count := NetCount(record);
    var nets := ParseNets(buffer, peer, count, interface_, gs, i);
    SpanIsProduct(count, SIZE);
    next := peer + SIZE.peer + count * SIZE.net;
    r := if nets.None? then None else Some(ParsedPeer(PeerValue(record), HasEndpoint(record), nets.value));
  }

  /** The reported size: the interface, then each peer with its counted allowed IPs. */
  lemma {:induction false} DumpEnds(interface_: seq<byte>, gs: seq<Group>, i: nat, j: nat)
    requires ValidDump(interface_, gs) && i < |gs| && j < |gs[i].nets|
    ensures NetAt(gs, SIZE, i, j) + SIZE.net <= PeerAt(gs, SIZE, i + 1) <= |Bytes(interface_, gs)|
    ensures NetAt(gs, SIZE, i, j) >= PeerAt(gs, SIZE, i) + SIZE.peer >= SIZE.interface_
  {
    ValidIsSized(interface_, gs);
    RecordsInOrder(gs, SIZE, i, j);
    BufferLength(interface_, gs, SIZE);
    if i + 1 < |gs| {
      PeerAtMonotone(gs, SIZE, i + 1, |gs|);
    }
    SpanMonotone(0, j, SIZE);
  }
}
