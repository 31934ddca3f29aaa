/** What a daemon of the userspace protocol answers when it is asked for its device, and that it is read. */
module UserDump {
  import opened Wrappers
  import opened WgTypes
  import opened Seqs
  import opened Text
  import opened Numbers
  import opened Addresses
  import opened UserParse
  import opened UserText
  import opened UserRoundTrip
  import opened UserExact

  // ----- what the daemon writes -----

  /** The time of the last handshake, zero for never. */
  function Times(p: Peer): (int, int) {
    p.lastHandshake.GetOr((0, 0))
  }

  function HeadLines(d: Device): seq<(string, string)> {
    When(d.hasPrivateKey, ("private_key", HexText(d.privateKey)))
    + When(d.hasListenPort, ("listen_port", Itoa(d.listenPort)))
    + When(d.hasFirewallMark, ("fwmark", Itoa(d.firewallMark)))
  }

  function IdentityLines(p: Peer): seq<(string, string)> {
    [("public_key", HexText(p.publicKey))]
    + When(p.hasPresharedKey, ("preshared_key", HexText(p.presharedKey)))
    + [("protocol_version", Itoa(p.protocolVersion))]
  }

  function AddressLines(o: Outside, p: Peer): seq<(string, string)> {
    if p.endpoint.Some? then [("endpoint", FormatEndpoint(o, p.endpoint.value))] else []
  }

  function TrafficLines(p: Peer): seq<(string, string)> {
    [("last_handshake_time_sec", Itoa(Times(p).0)), ("last_handshake_time_nsec", Itoa(Times(p).1))]
    + [("tx_bytes", Itoa(p.transmitBytes)), ("rx_bytes", Itoa(p.receiveBytes))]
    + When(p.hasKeepalive, ("persistent_keepalive_interval", Itoa(p.keepalive / SECOND)))
  }

  function PeerLines(o: Outside, p: Peer): seq<(string, string)> {
    IdentityLines(p) + AddressLines(o, p) + TrafficLines(p) + NetPairs(o, p.allowedIPs)
  }

  function PeersLines(o: Outside, ps: seq<Peer>): seq<(string, string)>
  {
    if ps == [] then [] else PeersLines(o, ps[..|ps| - 1]) + PeerLines(o, ps[|ps| - 1])
  }

  /** The device, its peers, and the error number of a request that was served. */
  function DumpLines(o: Outside, d: Device): seq<(string, string)> {
    HeadLines(d) + PeersLines(o, d.peers) + [("errno", "0")]
  }

  /** Numbers of the widths a daemon has, and endpoints whose text is read as an address. */
  predicate PeerHeld(p: Peer) {
    && (p.endpoint.Some? ==> EndpointSendable(p.endpoint.value))
    && 0 <= p.keepalive <= 65535 * SECOND && p.keepalive % SECOND == 0
    && (p.lastHandshake.Some? ==> 0 < p.lastHandshake.value.0 < 0x8000_0000_0000_0000
                                  && 0 < p.lastHandshake.value.1 < SECOND)
    && InInt64(p.receiveBytes) && InInt64(p.transmitBytes) && InInt64(p.protocolVersion)
  }

  predicate DeviceHeld(d: Device) {
    && InInt64(d.listenPort) && InInt64(d.firewallMark)
    && forall i :: 0 <= i < |d.peers| ==> PeerHeld(d.peers[i])
  }

  // ----- what the parser should say -----

  /** The peer as it is, but for its name; its networks without host bits, as the text names them. */
  function Told(p: Peer): Peer {
    Peer(None, p.publicKey, if p.hasPresharedKey then p.presharedKey else ZeroKey(), p.hasPresharedKey,
         ToldEndpoint(p), if p.hasKeepalive then p.keepalive else 0, p.hasKeepalive, p.lastHandshake,
         p.receiveBytes, p.transmitBytes, HeardNets(p.allowedIPs), p.protocolVersion)
  }

  function ToldEndpoint(p: Peer): Option<UDPAddr> {
    if p.endpoint.Some? then
      var e := p.endpoint.value;
      Some(UDPAddr(Unmap(e.ip), e.port, e.zone))
    else None
  }

  function ToldAll(ps: seq<Peer>): (r: seq<Peer>)
    ensures |r| == |ps|
  {
    if ps == [] then [] else ToldAll(ps[..|ps| - 1]) + [Told(ps[|ps| - 1])]
  }

  function ToldHeader(d: Device): Device {
    Device("", if d.hasPrivateKey then d.privateKey else ZeroKey(), d.hasPrivateKey, ZeroKey(), false,
           if d.hasListenPort then d.listenPort else 0, d.hasListenPort,
           if d.hasFirewallMark then d.firewallMark else 0, d.hasFirewallMark, [])
  }

  // ----- reading -----

  /** The parser with the numbers of the last handshake it has read. */
  function Timed(d: Device, ps: seq<Peer>, sec: int, nsec: int): Reading {
    At(d, ps).(hsSec := sec, hsNano := nsec)
  }

  predicate NotTime(key: string) {
    key != "last_handshake_time_sec" && key != "last_handshake_time_nsec"
  }

  /** Only the lines of a handshake look at those numbers. */
  lemma {:induction false} StepTimed(o: Outside, r: Reading, key: string, value: string, sec: int, nsec: int)
    requires Consistent(r) && NotTime(key)
    ensures Consistent(r.(hsSec := sec, hsNano := nsec))
    ensures Step(o, r.(hsSec := sec, hsNano := nsec), key, value) ==
            Step(o, r, key, value).(hsSec := sec, hsNano := nsec)
  {
    hide KeyRead, IntRead, AddrRead, NetRead, Int64, UnixTime;
  }

  lemma {:induction false} TimedConsistent(d: Device, ps: seq<Peer>, sec: int, nsec: int)
    ensures Consistent(Timed(d, ps, sec, nsec)) && Consistent(At(d, ps))
  {
  }

  lemma {:induction false} StartLine(o: Outside, d: Device, ps: seq<Peer>, sec: int, nsec: int, k: Key)
    ensures Consistent(Timed(d, ps, sec, nsec))
    ensures Step(o, Timed(d, ps, sec, nsec), "public_key", HexText(k)) ==
            Timed(d, ps + [EMPTY_PEER.(publicKey := k)], sec, nsec)
  {
    hide Step, HexText, At, ReadAll;
    var p := EMPTY_PEER_CONFIG.(publicKey := k);
    TimedConsistent(d, ps, sec, nsec);
    FlagsRead(o, d, ps, p);
    assert FlagPairs(p) == [("public_key", HexText(k))];
    ReadOne(o, At(d, ps), "public_key", HexText(k));
    KeyNotTime();
    StepTimed(o, At(d, ps), "public_key", HexText(k), sec, nsec);
  }

  lemma {:induction false} KeyNotTime()
    ensures NotTime("public_key") && NotTime("preshared_key") && NotTime("endpoint") && NotTime("allowed_ip")
  {
  }

  lemma {:induction false} NumberNotTime()
    ensures NotTime("protocol_version") && NotTime("tx_bytes") && NotTime("rx_bytes")
    ensures NotTime("persistent_keepalive_interval")
  {
    assert |"persistent_keepalive_interval"| == 29;
    assert |"last_handshake_time_sec"| == 23 && |"last_handshake_time_nsec"| == 24;
  }

  lemma {:induction false} IdentityTold(o: Outside, d: Device, ps: seq<Peer>, sec: int, nsec: int, p: Peer)
    requires InInt64(p.protocolVersion)
    ensures Consistent(Timed(d, ps, sec, nsec))
    ensures ReadAll(o, Timed(d, ps, sec, nsec), IdentityLines(p)) == Timed(d, ps + [Identified(p)], sec, nsec)
  {
    hide Step, HexText, Itoa, At, ReadAll, When, InInt64, Consistent;
    var q := EMPTY_PEER.(publicKey := p.publicKey);
    var q1 := if p.hasPresharedKey then q.(presharedKey := p.presharedKey, hasPresharedKey := true) else q;
    var r := Timed(d, ps, sec, nsec);
    var a, b := [("public_key", HexText(p.publicKey))],
      When(p.hasPresharedKey, ("preshared_key", HexText(p.presharedKey)));
    TimedConsistent(d, ps, sec, nsec);
    TimedConsistent(d, ps + [q], sec, nsec);
    TimedConsistent(d, ps + [q1], sec, nsec);
    StartLine(o, d, ps, sec, nsec, p.publicKey);
    ReadOne(o, r, "public_key", HexText(p.publicKey));
    KeyNotTime();
    NumberNotTime();
    StepPreshared(o, d, ps, q, p.presharedKey);
    StepTimed(o, At(d, ps + [q]), "preshared_key", HexText(p.presharedKey), sec, nsec);
    ReadWhen(o, Timed(d, ps + [q], sec, nsec), p.hasPresharedKey, "preshared_key", HexText(p.presharedKey));
    StepStatistics(o, d, ps, q1, p.protocolVersion);
    StepTimed(o, At(d, ps + [q1]), "protocol_version", Itoa(p.protocolVersion), sec, nsec);
    ReadOne(o, Timed(d, ps + [q1], sec, nsec), "protocol_version", Itoa(p.protocolVersion));
    ReadAllConcat(o, r, a, b);
    ReadAllConcat(o, r, a + b, [("protocol_version", Itoa(p.protocolVersion))]);
  }

  /** A peer with what identifies it. */
  function Identified(p: Peer): Peer {
    EMPTY_PEER.(publicKey := p.publicKey, presharedKey := if p.hasPresharedKey then p.presharedKey else ZeroKey(),
                hasPresharedKey := p.hasPresharedKey, protocolVersion := p.protocolVersion)
  }

  function Addressed(q: Peer, p: Peer): Peer {
    if p.endpoint.Some? then q.(endpoint := ToldEndpoint(p)) else q
  }

  lemma {:induction false} AddressTold(o: Outside, d: Device, ps: seq<Peer>, q: Peer, sec: int, nsec: int, p: Peer)
    requires LawfulIP6(o) && LawfulPorts(o) && (p.endpoint.Some? ==> EndpointSendable(p.endpoint.value))
    ensures Consistent(Timed(d, ps + [q], sec, nsec))
    ensures ReadAll(o, Timed(d, ps + [q], sec, nsec), AddressLines(o, p)) ==
            Timed(d, ps + [Addressed(q, p)], sec, nsec)
  {
    hide Step, FormatEndpoint, At, Consistent, Unmap, LawfulIP6, LawfulPorts, EndpointSendable;
    TimedConsistent(d, ps + [q], sec, nsec);
    if p.endpoint.Some? {
      KeyNotTime();
      StepEndpoint(o, d, ps, q, p.endpoint.value);
      StepTimed(o, At(d, ps + [q]), "endpoint", FormatEndpoint(o, p.endpoint.value), sec, nsec);
      ReadOne(o, Timed(d, ps + [q], sec, nsec), "endpoint", FormatEndpoint(o, p.endpoint.value));
    }
  }

  lemma {:induction false} TimesTold(o: Outside, d: Device, ps: seq<Peer>, q: Peer, sec: int, nsec: int, a: int, b: int)
    requires InInt64(a) && InInt64(b)
    ensures Consistent(Timed(d, ps + [q], sec, nsec))
    ensures ReadAll(o, Timed(d, ps + [q], sec, nsec),
              [("last_handshake_time_sec", Itoa(a)), ("last_handshake_time_nsec", Itoa(b))]) ==
            Timed(d, ps + [if a > 0 && b > 0 then q.(lastHandshake := Some(UnixTime(a, b))) else q], a, b)
  {
    hide WordOf, Itoa, IntRead, InInt64, UnixTime;
    var r := Timed(d, ps + [q], sec, nsec);
    var s, t := ("last_handshake_time_sec", Itoa(a)), ("last_handshake_time_nsec", Itoa(b));
    HandshakeWords();
    IntReadsBack(a);
    IntReadsBack(b);
    ReadOne(o, r, s.0, s.1);
    var r1 := ReadAll(o, r, [s]);
    ReadOne(o, r1, t.0, t.1);
    ReadAllConcat(o, r, [s], [t]);
    assert [s] + [t] == [s, t];
    var last := if a > 0 && b > 0 then q.(lastHandshake := Some(UnixTime(a, b))) else q;
    assert (ps + [q])[|ps| := last] == ps + [last];
  }

  lemma {:induction false} CountersTold(o: Outside, d: Device, ps: seq<Peer>, q: Peer, sec: int, nsec: int, p: Peer)
    requires InInt64(p.transmitBytes) && InInt64(p.receiveBytes)
    ensures Consistent(Timed(d, ps + [q], sec, nsec))
    ensures ReadAll(o, Timed(d, ps + [q], sec, nsec),
              [("tx_bytes", Itoa(p.transmitBytes)), ("rx_bytes", Itoa(p.receiveBytes))]) ==
            Timed(d, ps + [q.(transmitBytes := p.transmitBytes, receiveBytes := p.receiveBytes)], sec, nsec)
  {
    hide Step, Itoa, At, ReadAll, InInt64, Consistent;
    var r, q1 := Timed(d, ps + [q], sec, nsec), q.(transmitBytes := p.transmitBytes);
    var s, t := ("tx_bytes", Itoa(p.transmitBytes)), ("rx_bytes", Itoa(p.receiveBytes));
    TimedConsistent(d, ps + [q], sec, nsec);
    TimedConsistent(d, ps + [q1], sec, nsec);
    NumberNotTime();
    StepStatistics(o, d, ps, q, p.transmitBytes);
    StepTimed(o, At(d, ps + [q]), s.0, s.1, sec, nsec);
    ReadOne(o, r, s.0, s.1);
    StepStatistics(o, d, ps, q1, p.receiveBytes);
    StepTimed(o, At(d, ps + [q1]), t.0, t.1, sec, nsec);
    ReadOne(o, Timed(d, ps + [q1], sec, nsec), t.0, t.1);
    ReadAllConcat(o, r, [s], [t]);
    assert [s] + [t] == [s, t];
  }

  function Kept(q: Peer, p: Peer): Peer {
    if p.hasKeepalive then q.(keepalive := p.keepalive, hasKeepalive := true) else q
  }

  lemma {:induction false} KeepaliveTold(o: Outside, d: Device, ps: seq<Peer>, q: Peer, sec: int, nsec: int, p: Peer)
    requires 0 <= p.keepalive <= 65535 * SECOND && p.keepalive % SECOND == 0
    ensures Consistent(Timed(d, ps + [q], sec, nsec))
    ensures ReadAll(o, Timed(d, ps + [q], sec, nsec),
              When(p.hasKeepalive, ("persistent_keepalive_interval", Itoa(p.keepalive / SECOND)))) ==
            Timed(d, ps + [Kept(q, p)], sec, nsec)
  {
    hide Step, Itoa, At, ReadAll, When, Consistent;
    var n := p.keepalive;
    TimedConsistent(d, ps + [q], sec, nsec);
    NumberNotTime();
    assert WholeSeconds(n) == n / SECOND && WholeSeconds(n) * SECOND == n;
    StepKeepalive(o, d, ps, q, n);
    StepTimed(o, At(d, ps + [q]), "persistent_keepalive_interval", Itoa(n / SECOND), sec, nsec);
    ReadWhen(o, Timed(d, ps + [q], sec, nsec), p.hasKeepalive, "persistent_keepalive_interval", Itoa(n / SECOND));
  }

  lemma {:induction false} NetsTold(o: Outside, d: Device, ps: seq<Peer>, q: Peer, sec: int, nsec: int, nets: seq<Cidr>)
    requires LawfulIP6(o)
    ensures Consistent(Timed(d, ps + [q], sec, nsec))
    ensures ReadAll(o, Timed(d, ps + [q], sec, nsec), NetPairs(o, nets)) ==
            Timed(d, ps + [WithNets(q, q.allowedIPs + HeardNets(nets))], sec, nsec)
    decreases |nets|
  {
    hide At, Step, Consistent, WriteCidr, Heard, LawfulIP6;
    TimedConsistent(d, ps + [q], sec, nsec);
    if nets == [] {
      Assoc(q.allowedIPs, [], []);
    } else {
      var init, c := nets[..|nets| - 1], nets[|nets| - 1];
      NetsTold(o, d, ps, q, sec, nsec, init);
      var q' := WithNets(q, q.allowedIPs + HeardNets(init));
      KeyNotTime();
      StepNet(o, d, ps, q', c);
      StepTimed(o, At(d, ps + [q']), "allowed_ip", WriteCidr(o, c), sec, nsec);
      Assoc(q.allowedIPs, HeardNets(init), [Heard(c)]);
    }
  }

  /** The lines of a peer describe it, whatever the peers before it were. */
  lemma {:induction false} PeerTold(o: Outside, d: Device, ps: seq<Peer>, sec: int, nsec: int, p: Peer)
    requires LawfulIP6(o) && LawfulPorts(o) && PeerHeld(p)
    ensures Consistent(Timed(d, ps, sec, nsec))
    ensures ReadAll(o, Timed(d, ps, sec, nsec), PeerLines(o, p)) == Timed(d, ps + [Told(p)], Times(p).0, Times(p).1)
  {
    hide At, ReadAll, IdentityLines, AddressLines, NetPairs, HeardNets, LawfulIP6, LawfulPorts, EndpointSendable,
      When, Timed, Consistent, UnixTime, ToldEndpoint, Itoa;
    var a, b := Times(p).0, Times(p).1;
    var r := Timed(d, ps, sec, nsec);
    var q1 := Identified(p);
    var q2 := Addressed(q1, p);
    var q3 := if a > 0 && b > 0 then q2.(lastHandshake := Some(UnixTime(a, b))) else q2;
    var q4 := q3.(transmitBytes := p.transmitBytes, receiveBytes := p.receiveBytes);
    var q5 := Kept(q4, p);
    TimedConsistent(d, ps, sec, nsec);
    IdentityTold(o, d, ps, sec, nsec, p);
    AddressTold(o, d, ps, q1, sec, nsec, p);
    TimesTold(o, d, ps, q2, sec, nsec, a, b);
    CountersTold(o, d, ps, q3, a, b, p);
    KeepaliveTold(o, d, ps, q4, a, b, p);
    NetsTold(o, d, ps, q5, a, b, p.allowedIPs);
    var l1, l2, l6 := IdentityLines(p), AddressLines(o, p), NetPairs(o, p.allowedIPs);
    var l3 := [("last_handshake_time_sec", Itoa(a)), ("last_handshake_time_nsec", Itoa(b))];
    var l4 := [("tx_bytes", Itoa(p.transmitBytes)), ("rx_bytes", Itoa(p.receiveBytes))];
    var l5 := When(p.hasKeepalive, ("persistent_keepalive_interval", Itoa(p.keepalive / SECOND)));
    ReadAllConcat(o, r, l1, l2);
    ReadAllConcat(o, Timed(d, ps + [q2], sec, nsec), l3, l4);
    ReadAllConcat(o, Timed(d, ps + [q2], sec, nsec), l3 + l4, l5);
    ReadAllConcat(o, r, l1 + l2, l3 + l4 + l5);
    ReadAllConcat(o, r, l1 + l2 + (l3 + l4 + l5), l6);
    ToldParts(p);
  }

  lemma {:induction false} ToldParts(p: Peer)
    requires PeerHeld(p)
    ensures var a, b := Times(p).0, Times(p).1;
            var q2 := Addressed(Identified(p), p);
            var q3 := if a > 0 && b > 0 then q2.(lastHandshake := Some(UnixTime(a, b))) else q2;
            var q5 := Kept(q3.(transmitBytes := p.transmitBytes, receiveBytes := p.receiveBytes), p);
            WithNets(q5, q5.allowedIPs + HeardNets(p.allowedIPs)) == Told(p)
    ensures InInt64(Times(p).0) && InInt64(Times(p).1)
  {
    hide EndpointSendable, HeardNets, Unmap;
    assert [] + HeardNets(p.allowedIPs) == HeardNets(p.allowedIPs);
  }

  // ----- the device -----

  /** The times that the last peer leaves behind. */
  function LastTimes(ps: seq<Peer>): (int, int) {
    if ps == [] then (0, 0) else Times(ps[|ps| - 1])
  }

  lemma {:induction false} PeersTold(o: Outside, d: Device, ps: seq<Peer>)
    requires LawfulIP6(o) && LawfulPorts(o) && forall i :: 0 <= i < |ps| ==> PeerHeld(ps[i])
    ensures Consistent(Timed(d, [], 0, 0))
    ensures ReadAll(o, Timed(d, [], 0, 0), PeersLines(o, ps)) ==
            Timed(d, ToldAll(ps), LastTimes(ps).0, LastTimes(ps).1)
  {
    hide At, PeerLines, LawfulIP6, LawfulPorts, PeerHeld, Told, Timed, Consistent, Times, Step;
    TimedConsistent(d, [], 0, 0);
    if ps == [] {
    } else {
      var init, p := ps[..|ps| - 1], ps[|ps| - 1];
      PeersTold(o, d, init);
      ReadAllConcat(o, Timed(d, [], 0, 0), PeersLines(o, init), PeerLines(o, p));
      PeerTold(o, d, ToldAll(init), LastTimes(init).0, LastTimes(init).1, p);
    }
  }

  /** The device fields as a configuration that sets them. */
  function HeadConfig(d: Device): Config {
    Config(if d.hasPrivateKey then Some(d.privateKey) else None, if d.hasListenPort then Some(d.listenPort) else None,
           if d.hasFirewallMark then Some(d.firewallMark) else None, false, [])
  }

  lemma {:induction false} HeadTold(o: Outside, d: Device)
    requires InInt64(d.listenPort) && InInt64(d.firewallMark)
    ensures ReadAll(o, NOTHING, HeadLines(d)) == Timed(ToldHeader(d), [], 0, 0)
  {
    hide HexText, Itoa, ReadAll;
    HeaderReads(o, HeadConfig(d));
    assert HeadLines(d) == HeaderPairs(HeadConfig(d));
  }

  lemma {:induction false} ZeroText()
    ensures Itoa(0) == "0"
  {
    assert Format(0, 10) == [DigitChar(0)];
  }

  /** The whole dump describes the device. */
  lemma {:induction false} DumpTold(o: Outside, d: Device, publicKey: Key -> Key)
    requires LawfulIP6(o) && LawfulPorts(o) && DeviceHeld(d)
    ensures Finished(ReadAll(o, NOTHING, DumpLines(o, d)), publicKey) ==
            Finished(At(ToldHeader(d), ToldAll(d.peers)), publicKey)
  {
    hide At, ReadAll, HeadLines, PeersLines, LawfulIP6, LawfulPorts, PeerHeld, InInt64, Step, Itoa, Finished;
    var peers := ToldAll(d.peers);
    var (sec, nsec) := LastTimes(d.peers);
    var r := Timed(ToldHeader(d), peers, sec, nsec);
    HeadTold(o, d);
    NothingConsistent();
    PeersTold(o, ToldHeader(d), d.peers);
    ReadAllConcat(o, NOTHING, HeadLines(d), PeersLines(o, d.peers));
    ReadAllConcat(o, NOTHING, HeadLines(d) + PeersLines(o, d.peers), [("errno", "0")]);
    TimedConsistent(ToldHeader(d), peers, sec, nsec);
    ReadOne(o, r, "errno", "0");
    ZeroText();
    AtNoError(ToldHeader(d), peers);
    ZeroFits();
    ErrnoStep(o, r, 0);
    TimeForgotten(ToldHeader(d), peers, sec, nsec, publicKey);
  }

  lemma {:induction false} ZeroFits()
    ensures InInt64(0)
  {
  }

  lemma {:induction false} AtNoError(d: Device, ps: seq<Peer>)
    ensures At(d, ps).err.None?
  {
  }

  lemma {:induction false} TimeForgotten(d: Device, ps: seq<Peer>, sec: int, nsec: int, publicKey: Key -> Key)
    ensures Finished(Timed(d, ps, sec, nsec), publicKey) == Finished(At(d, ps), publicKey)
  {
  }

  // ----- the text -----

  lemma {:induction false} LabelsSafe()
    ensures Safe("private_key") && Safe("listen_port") && Safe("fwmark") && Safe("public_key") && Safe("preshared_key")
    ensures Safe("protocol_version") && Safe("last_handshake_time_sec") && Safe("last_handshake_time_nsec")
    ensures Safe("tx_bytes") && Safe("rx_bytes") && Safe("persistent_keepalive_interval") && Safe("errno") && Safe("0")
  {
    hide Safe;
    DeviceKeysSafe();
    FlagKeysSafe();
    SettingKeysSafe();
    VersionSafe();
    SecSafe();
    NsecSafe();
    CountersSafe();
  }

  lemma {:induction false} VersionSafe()
    ensures Safe("protocol_version")
  {
  }

  lemma {:induction false} SecSafe()
    ensures Safe("last_handshake_time_sec")
  {
  }

  lemma {:induction false} NsecSafe()
    ensures Safe("last_handshake_time_nsec")
  {
  }

  lemma {:induction false} CountersSafe()
    ensures Safe("tx_bytes") && Safe("rx_bytes") && Safe("errno") && Safe("0")
  {
  }

  lemma {:induction false} OneSafe(key: string, value: string)
    requires key != "" && Safe(key) && Safe(value)
    ensures AllSafe([(key, value)])
  {
    hide Safe;
  }

  lemma {:induction false} HeadSafe(d: Device)
    requires InInt64(d.listenPort) && InInt64(d.firewallMark)
    ensures AllSafe(HeadLines(d))
  {
    hide HexText, Itoa, AllSafe;
    HeaderSafe(HeadConfig(d));
    assert HeadLines(d) == HeaderPairs(HeadConfig(d));
  }

  lemma {:induction false} IdentitySafe(p: Peer)
    requires InInt64(p.protocolVersion)
    ensures AllSafe(IdentityLines(p))
  {
    hide AllSafe, HexText, Itoa, When, Safe, InInt64;
    LabelsSafe();
    HexIsSafe(p.publicKey);
    HexIsSafe(p.presharedKey);
    NumberIsSafe(p.protocolVersion);
    OneSafe("public_key", HexText(p.publicKey));
    SafeWhen(p.hasPresharedKey, "preshared_key", HexText(p.presharedKey));
    OneSafe("protocol_version", Itoa(p.protocolVersion));
    var a, b := [("public_key", HexText(p.publicKey))],
      When(p.hasPresharedKey, ("preshared_key", HexText(p.presharedKey)));
    SafeConcat(a, b);
    SafeConcat(a + b, [("protocol_version", Itoa(p.protocolVersion))]);
  }

  lemma {:induction false} TwoSafe(key: string, value: string, key2: string, value2: string)
    requires key != "" && Safe(key) && Safe(value) && key2 != "" && Safe(key2) && Safe(value2)
    ensures AllSafe([(key, value), (key2, value2)])
  {
    hide Safe;
  }

  lemma {:induction false} TrafficSafe(p: Peer)
    requires PeerHeld(p)
    ensures AllSafe(TrafficLines(p))
  {
    hide AllSafe, Itoa, When, Safe, EndpointSendable;
    LabelsSafe();
    ToldParts(p);
    var a, b := Times(p).0, Times(p).1;
    NumberIsSafe(a);
    NumberIsSafe(b);
    NumberIsSafe(p.transmitBytes);
    NumberIsSafe(p.receiveBytes);
    NumberIsSafe(p.keepalive / SECOND);
    var l3 := [("last_handshake_time_sec", Itoa(a)), ("last_handshake_time_nsec", Itoa(b))];
    var l4 := [("tx_bytes", Itoa(p.transmitBytes)), ("rx_bytes", Itoa(p.receiveBytes))];
    TwoSafe("last_handshake_time_sec", Itoa(a), "last_handshake_time_nsec", Itoa(b));
    TwoSafe("tx_bytes", Itoa(p.transmitBytes), "rx_bytes", Itoa(p.receiveBytes));
    SafeWhen(p.hasKeepalive, "persistent_keepalive_interval", Itoa(p.keepalive / SECOND));
    SafeConcat(l3, l4);
    SafeConcat(l3 + l4, When(p.hasKeepalive, ("persistent_keepalive_interval", Itoa(p.keepalive / SECOND))));
  }

  lemma {:induction false} AddressSafe(o: Outside, p: Peer)
    requires LawfulIP6(o) && (p.endpoint.Some? ==> EndpointSendable(p.endpoint.value))
    ensures AllSafe(AddressLines(o, p))
  {
    hide FormatEndpoint, PairSafe, LawfulIP6, EndpointSendable;
    if p.endpoint.Some? {
      EndpointTextSafe(o, p.endpoint.value);
    }
  }

  lemma {:induction false} PeersSafe(o: Outside, ps: seq<Peer>)
    requires LawfulIP6(o) && forall i :: 0 <= i < |ps| ==> PeerHeld(ps[i])
    ensures AllSafe(PeersLines(o, ps))
  {
    hide AllSafe, IdentityLines, AddressLines, TrafficLines, NetPairs, LawfulIP6, EndpointSendable;
    if ps == [] {
      NothingSafe();
    } else {
      var init, p := ps[..|ps| - 1], ps[|ps| - 1];
      PeersSafe(o, init);
      IdentitySafe(p);
      AddressSafe(o, p);
      TrafficSafe(p);
      NetsSafe(o, p.allowedIPs);
      SafeConcat(IdentityLines(p), AddressLines(o, p));
      SafeConcat(IdentityLines(p) + AddressLines(o, p), TrafficLines(p));
      SafeConcat(IdentityLines(p) + AddressLines(o, p) + TrafficLines(p), NetPairs(o, p.allowedIPs));
      SafeConcat(PeersLines(o, init), PeerLines(o, p));
    }
  }

  lemma {:induction false} DumpSafe(o: Outside, d: Device)
    requires LawfulIP6(o) && DeviceHeld(d)
    ensures AllSafe(DumpLines(o, d))
  {
    hide AllSafe, HeadLines, PeersLines, LawfulIP6, PeerHeld, Safe, InInt64;
    HeadSafe(d);
    PeersSafe(o, d.peers);
    LabelsSafe();
    OneSafe("errno", "0");
    SafeConcat(HeadLines(d), PeersLines(o, d.peers));
    SafeConcat(HeadLines(d) + PeersLines(o, d.peers), [("errno", "0")]);
  }

  /** The empty line behind the lines ends the reading, unless a line before it is too long. */
  lemma {:induction false} CountedToEnd(lines: seq<string>)
    requires forall i :: 0 <= i < |lines| ==> DropCR(lines[i]) != "" && KeyValue(DropCR(lines[i])).Some?
    ensures var n := PairCount(lines + [""]);
            && n <= |lines| && (n == |lines| <==> Fits(lines))
            && (n < |lines| ==> ByteLength(lines[n]) >= 65536)
  {
    hide KeyValue, ByteLength, PairCount;
    var all := lines + [""];
    var n := PairCount(all);
    assert all[|lines|] == "" && DropCR("") == "";
    assert forall i :: 0 <= i < |lines| ==> all[i] == lines[i];
    PairCountStops(all, |lines|);
    if n < |lines| {
      PairCountStops(all, n);
    }
    forall i | 0 <= i < n
      ensures ByteLength(all[i]) < 65536
    {
      PairCountStops(all, i);
    }
  }

  /**
   * Whatever device the daemon describes in answer to a request, the parser returns it: its
   * fields, and its peers with all their counters, unless a line is too long for the scanner.
   */
  lemma {:induction false} DumpIsRead(o: Outside, d: Device, publicKey: Key -> Key)
    requires LawfulIP6(o) && LawfulPorts(o) && DeviceHeld(d)
    ensures var lines := LinesOf(DumpLines(o, d));
            Outcome(o, Unlines(lines + [""]), publicKey) ==
            if Fits(lines) then Finish(WithPeers(ToldHeader(d), ToldAll(d.peers)), publicKey) else Err(TooLong)
  {
    hide At, ReadAll, DumpLines, LawfulIP6, LawfulPorts, DeviceHeld, AllSafe, Fits, LinesOf, PairsOf, DropCR,
      KeyValue, ByteLength, PairCount, ToldHeader, ToldAll, Finished, Lines;
    var pairs := DumpLines(o, d);
    var lines := LinesOf(pairs);
    DumpSafe(o, d);
    LinesSafe(pairs);
    assert AllAbsent(lines + [""], '\n');
    LinesUnlines(lines + [""]);
    CountedToEnd(lines);
    SafePairsOf(pairs);
    assert (lines + [""])[..|lines|] == lines;
    EmptyEnds();
    DumpTold(o, d, publicKey);
    AtFinished(ToldHeader(d), ToldAll(d.peers), publicKey);
  }

  lemma {:induction false} EmptyEnds()
    ensures DropCR("") == "" && ByteLength("") == 0
  {
  }
}
