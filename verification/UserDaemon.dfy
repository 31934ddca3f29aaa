/**
 * What a daemon of the userspace protocol does with the text of a configuration, line by line:
 * to any device, what the configuration means.
 */
module UserDaemon {
  import opened Wrappers
  import opened WgTypes
  import opened DeviceModel
  import opened Seqs
  import opened Text
  import opened Numbers
  import opened Addresses
  import opened UserParse
  import opened UserText
  import opened UserRoundTrip
  import opened UserExact

  // ----- the daemon -----

  /** The device, the peer whose lines are being read, and whether these lines have made it. */
  datatype Serving = Serving(s: State, peer: Option<Key>, created: bool)

  function WithPeer(s: State, k: Key, p: PeerState): State {
    s.(peers := s.peers[k := p])
  }

  function WithTable(s: State, table: map<Cidr, Key>): State {
    s.(table := table)
  }

  /** A public key starts a peer, which is made if it is not there. */
  function Start(s: State, k: Key): Serving {
    if k in s.peers then Serving(s, Some(k), false)
      else Serving(WithPeer(s, k, PeerState(ZeroKey(), None, 0)), Some(k), true)
  }

  function ReadKey32(value: string): Option<Key> {
    match DecodeHex(value)
    case Some(b) => if |b| == 32 then Some(b) else None
    case None => None
  }

  /** A minus sign takes the network away from the peer, if it has it; otherwise the peer gets it. */
  function ServeNet(o: Outside, table: map<Cidr, Key>, k: Key, value: string): Option<map<Cidr, Key>> {
    var minus := value != "" && value[0] == '-';
    match ReadNetwork(o, if minus then value[1..] else value)
    case None => None
    case Some(c) => Some(
      if !minus then table[c := k] else if c in table && table[c] == k then table - {c} else table)
  }

  /** The lines of a peer; those of one that was removed or never made do nothing. */
  function ServePeer(o: Outside, at: Serving, key: string, value: string): Option<Serving> {
    if at.peer.None? || at.peer.value !in at.s.peers then Some(at)
    else
      var k, s := at.peer.value, at.s;
      var p := s.peers[k];
      match key
      case "remove" => Some(Serving(RemovePeer(s, k), None, false))
      case "update_only" => Some(if at.created then Serving(RemovePeer(s, k), None, false) else at)
      case "replace_allowed_ips" => Some(at.(s := WithTable(s, DropOwner(s.table, k))))
      case "preshared_key" =>
        (match ReadKey32(value)
         case Some(psk) => Some(at.(s := WithPeer(s, k, p.(presharedKey := psk))))
         case None => None)
      case "endpoint" =>
        (match ReadUDPAddr(o, value)
         case Some(e) => Some(at.(s := WithPeer(s, k, p.(endpoint := Some(e)))))
         case None => None)
      case "persistent_keepalive_interval" =>
        (match Atoi(value)
         case Some(n) => Some(at.(s := WithPeer(s, k, p.(keepalive := n))))
         case None => None)
      case "allowed_ip" =>
        (match ServeNet(o, s.table, k, value)
         case Some(table) => Some(at.(s := WithTable(s, table)))
         case None => None)
      case _ => None
  }

  /** One line; those of the device come before those of the peers. */
  function ServeLine(o: Outside, at: Serving, key: string, value: string): Option<Serving> {
    match key
    case "private_key" =>
      (match ReadKey32(value)
       case Some(k) => Some(at.(s := at.s.(privateKey := k)))
       case None => None)
    case "listen_port" =>
      (match Atoi(value)
       case Some(n) => Some(at.(s := at.s.(listenPort := n)))
       case None => None)
    case "fwmark" =>
      (match Atoi(value)
       case Some(n) => Some(at.(s := at.s.(firewallMark := n)))
       case None => None)
    case "replace_peers" => Some(at.(s := at.s.(peers := map[], table := map[])))
    case "public_key" =>
      (match ReadKey32(value)
       case Some(k) => Some(Start(at.s, k))
       case None => None)
    case _ => ServePeer(o, at, key, value)
  }

  /** All lines in order, if every one of them can be read. */
  function ServeAll(o: Outside, at: Serving, pairs: seq<(string, string)>): Option<Serving>
    decreases |pairs|
  {
    if pairs == [] then Some(at)
    else
      var (key, value) := pairs[|pairs| - 1];
      match ServeAll(o, at, pairs[..|pairs| - 1])
      case Some(before) => ServeLine(o, before, key, value)
      case None => None
  }

  /** The device after the daemon has been given the text. */
  function Obeyed(o: Outside, s: State, text: string): Option<State> {
    match ServeAll(o, Serving(s, None, false), PairsOf(Lines(text)))
    case Some(at) => Some(at.s)
    case None => None
  }

  // ----- what a configuration asks for -----

  /** The configuration as its text says it: addresses that stand for IPv4 ones are IPv4 ones. */
  function Said(cfg: Config): Config {
    cfg.(peers := SaidPeers(cfg.peers))
  }

  function SaidPeers(ps: seq<PeerConfig>): (r: seq<PeerConfig>)
    ensures |r| == |ps|
  {
    if ps == [] then [] else SaidPeers(ps[..|ps| - 1]) + [SaidPeer(ps[|ps| - 1])]
  }

  function SaidPeer(p: PeerConfig): PeerConfig {
    p.(endpoint := ReadEndpointOf(p), allowedIPs := SaidNets(p.allowedIPs), operations := SaidOps(p.operations))
  }

  function SaidNets(nets: seq<Cidr>): (r: seq<Cidr>)
    ensures |r| == |nets|
  {
    if nets == [] then [] else SaidNets(nets[..|nets| - 1]) + [Spoken(nets[|nets| - 1])]
  }

  function SaidOp(op: AllowedIPConfig): AllowedIPConfig {
    AllowedIPConfig(Spoken(op.net), op.operation)
  }

  function SaidOps(ops: seq<AllowedIPConfig>): (r: seq<AllowedIPConfig>)
    ensures |r| == |ops|
  {
    if ops == [] then [] else SaidOps(ops[..|ops| - 1]) + [SaidOp(ops[|ops| - 1])]
  }

  /** Numbers that the protocol has room for. */
  predicate InProtocol(cfg: Config) {
    && (cfg.listenPort.Some? ==> 0 <= cfg.listenPort.value <= 65535)
    && (cfg.firewallMark.Some? ==> 0 <= cfg.firewallMark.value < 0x1_0000_0000)
    && forall i :: 0 <= i < |cfg.peers| ==> PeerInProtocol(cfg.peers[i])
  }

  predicate PeerInProtocol(p: PeerConfig) {
    p.keepalive.Some? ==> 0 <= p.keepalive.value < 65536 * SECOND
  }

  // ----- lines -----

  lemma {:induction false} ServeConcat(o: Outside, at: Serving, a: seq<(string, string)>, b: seq<(string, string)>)
    requires ServeAll(o, at, a).Some?
    ensures ServeAll(o, at, a + b) == ServeAll(o, ServeAll(o, at, a).value, b)
    decreases |b|
  {
    hide ServeLine;
    if b == [] {
      Assoc(a, [], []);
    } else {
      var b' := b[..|b| - 1];
      assert (a + b)[..|a + b| - 1] == a + b';
      ServeConcat(o, at, a, b');
    }
  }

  lemma {:induction false} ServeOne(o: Outside, at: Serving, key: string, value: string)
    ensures ServeAll(o, at, [(key, value)]) == ServeLine(o, at, key, value)
  {
    hide ServeLine;
    var one := [(key, value)];
    assert one[..0] == [];
    assert ServeAll(o, at, one[..0]) == Some(at);
  }

  lemma {:induction false} ServeWhen(o: Outside, at: Serving, condition: bool, key: string, value: string)
    ensures ServeAll(o, at, When(condition, (key, value))) ==
            if condition then ServeLine(o, at, key, value) else Some(at)
  {
    hide ServeLine;
    if condition {
      ServeOne(o, at, key, value);
    }
  }

  lemma {:induction false} KeyServed(k: Key)
    ensures ReadKey32(HexText(k)) == Some(k) && DecodeHex(HexText(k)) == Some(k)
  {
    HexReads(k);
  }

  lemma {:induction false} NumberServed(n: int)
    requires InInt64(n)
    ensures Atoi(Itoa(n)) == Some(n)
  {
    hide Itoa, Atoi;
    IntReadsBack(n);
  }

  // ----- the device part -----

  /** The device fields of the configuration, on a device whose numbers have room for them. */
  lemma {:induction false} HeaderServed(o: Outside, s: State, cfg: Config)
    requires (cfg.listenPort.Some? ==> 0 <= cfg.listenPort.value <= 65535)
    requires (cfg.firewallMark.Some? ==> 0 <= cfg.firewallMark.value < 0x1_0000_0000)
    ensures ServeAll(o, Serving(s, None, false), HeaderPairs(cfg)) == Some(Serving(ApplyHeader(s, cfg), None, false))
  {
    hide HexText, Itoa, Atoi, ReadKey32, ServeAll, When, ServePeer;
    var k, port, mark := cfg.privateKey.GetOr(ZeroKey()), cfg.listenPort.GetOr(0), cfg.firewallMark.GetOr(0);
    KeyServed(k);
    NumberServed(port);
    NumberServed(mark);
    var r0 := Serving(s, None, false);
    ServeWhen(o, r0, cfg.privateKey.Some?, "private_key", HexText(k));
    var r1 := Serving(if cfg.privateKey.Some? then s.(privateKey := k) else s, None, false);
    ServeWhen(o, r1, cfg.listenPort.Some?, "listen_port", Itoa(port));
    var r2 := Serving(if cfg.listenPort.Some? then r1.s.(listenPort := port) else r1.s, None, false);
    ServeWhen(o, r2, cfg.firewallMark.Some?, "fwmark", Itoa(mark));
    var r3 := Serving(if cfg.firewallMark.Some? then r2.s.(firewallMark := mark) else r2.s, None, false);
    ServeWhen(o, r3, cfg.replacePeers, "replace_peers", "true");
    var a, b, c := When(cfg.privateKey.Some?, ("private_key", HexText(k))),
      When(cfg.listenPort.Some?, ("listen_port", Itoa(port))), When(cfg.firewallMark.Some?, ("fwmark", Itoa(mark)));
    ServeConcat(o, r0, a, b);
    ServeConcat(o, r0, a + b, c);
    ServeConcat(o, r0, a + b + c, When(cfg.replacePeers, ("replace_peers", "true")));
  }

  // ----- one network -----

  lemma {:induction false} NetServed(o: Outside, table: map<Cidr, Key>, k: Key, op: AllowedIPConfig)
    requires LawfulIP6(o)
    ensures ServeNet(o, table, k, OperationText(o, op)) == Some(ApplyOp(table, k, SaidOp(op)))
  {
    hide WriteCidr, Spoken, Masked, ReadNetwork, LawfulIP6;
    var text := WriteCidr(o, op.net);
    NetReadsBack(o, op.net);
    if text != "" && text[0] == '-' {
      SignedNetFails(o, text);
      assert false;
    }
    if op.operation == AllowedIPRemove {
      assert ("-" + text)[1..] == text;
    } else {
      assert "" + text == text;
    }
    assert text != "" by {
      CidrText(o, op.net);
    }
  }

  /** Serving peer `k` on the device `s`. */
  function On(s: State, k: Key, created: bool): Serving {
    Serving(s, Some(k), created)
  }

  lemma {:induction false} NetLineServed(o: Outside, s: State, k: Key, created: bool, op: AllowedIPConfig)
    requires LawfulIP6(o) && k in s.peers
    ensures ServeLine(o, On(s, k, created), "allowed_ip", OperationText(o, op)) ==
            Some(On(WithTable(s, ApplyOp(s.table, k, SaidOp(op))), k, created))
  {
    hide OperationText, ServeNet, ApplyOp, LawfulIP6, Atoi, ReadKey32, ReadUDPAddr, SaidOp;
    NetServed(o, s.table, k, op);
  }

  lemma {:induction false} OpsServed(o: Outside, s: State, k: Key, created: bool, ops: seq<AllowedIPConfig>)
    requires LawfulIP6(o) && k in s.peers
    ensures ServeAll(o, On(s, k, created), OperationPairs(o, ops)) ==
            Some(On(WithTable(s, ApplyOps(s.table, k, SaidOps(ops))), k, created))
  {
    hide OperationText, ServeLine, ApplyOp, LawfulIP6, SaidOp;
    if ops == [] {
    } else {
      var init, op := ops[..|ops| - 1], ops[|ops| - 1];
      OpsServed(o, s, k, created, init);
      NetLineServed(o, WithTable(s, ApplyOps(s.table, k, SaidOps(init))), k, created, op);
      assert OperationPairs(o, ops)[..|OperationPairs(o, ops)| - 1] == OperationPairs(o, init);
      assert SaidOps(ops)[..|init|] == SaidOps(init);
    }
  }

  lemma {:induction false} AddsAre(nets: seq<Cidr>)
    ensures AddAll(SaidNets(nets)) == SaidOps(AddAll(nets))
  {
    hide Spoken;
    if nets == [] {
    } else {
      var init, c := nets[..|nets| - 1], nets[|nets| - 1];
      AddsAre(init);
      assert AddAll(nets)[..|init|] == AddAll(init);
      assert SaidNets(nets)[..|init|] == SaidNets(init);
      assert AddAll(SaidNets(nets))[..|init|] == AddAll(SaidNets(init));
    }
  }

  lemma {:induction false} NetPairsAre(o: Outside, nets: seq<Cidr>)
    ensures NetPairs(o, nets) == OperationPairs(o, AddAll(nets))
  {
    hide WriteCidr;
    if nets == [] {
    } else {
      var init, c := nets[..|nets| - 1], nets[|nets| - 1];
      NetPairsAre(o, init);
      assert AddAll(nets)[..|init|] == AddAll(init);
      assert "" + WriteCidr(o, c) == WriteCidr(o, c);
    }
  }

  // ----- the settings of a peer -----

  lemma {:induction false} PresharedServed(o: Outside, s: State, k: Key, created: bool, psk: Key)
    requires k in s.peers
    ensures ServeLine(o, On(s, k, created), "preshared_key", HexText(psk)) ==
            Some(On(WithPeer(s, k, s.peers[k].(presharedKey := psk)), k, created))
  {
    hide HexText, ReadKey32, Atoi, ReadUDPAddr, ServeNet;
    KeyServed(psk);
  }

  lemma {:induction false} EndpointServed(o: Outside, s: State, k: Key, created: bool, e: UDPAddr)
    requires LawfulIP6(o) && LawfulPorts(o) && EndpointSendable(e) && k in s.peers
    ensures ServeLine(o, On(s, k, created), "endpoint", FormatEndpoint(o, e)) ==
            Some(On(WithPeer(s, k, s.peers[k].(endpoint := Some(UDPAddr(Unmap(e.ip), e.port, e.zone)))), k, created))
  {
    hide FormatEndpoint, ReadKey32, Atoi, ReadUDPAddr, ServeNet, Unmap, LawfulIP6, LawfulPorts, EndpointSendable;
    AddrReadsBack(o, e);
  }

  lemma {:induction false} KeepaliveServed(o: Outside, s: State, k: Key, created: bool, n: int)
    requires InInt64(n) && k in s.peers
    ensures ServeLine(o, On(s, k, created), "persistent_keepalive_interval", Itoa(n)) ==
            Some(On(WithPeer(s, k, s.peers[k].(keepalive := n)), k, created))
  {
    hide Itoa, ReadKey32, Atoi, ReadUDPAddr, ServeNet, InInt64;
    NumberServed(n);
  }

  lemma {:induction false} ReplaceServed(o: Outside, s: State, k: Key, created: bool)
    requires k in s.peers
    ensures ServeLine(o, On(s, k, created), "replace_allowed_ips", "true") ==
            Some(On(WithTable(s, DropOwner(s.table, k)), k, created))
  {
    hide ReadKey32, Atoi, ReadUDPAddr, ServeNet, DropOwner;
  }

  /** What the settings of an entry make of the device. */
  function Set(s: State, p: PeerConfig): State
    requires p.publicKey in s.peers
  {
    var k := p.publicKey;
    WithTable(WithPeer(s, k, Settings(s.peers[k], SaidPeer(p))),
              if p.replaceAllowedIPs then DropOwner(s.table, k) else s.table)
  }

  lemma {:induction false} SecondsServed(n: int)
    requires 0 <= n < 65536 * SECOND
    ensures InInt64(WholeSeconds(n)) && KeepaliveSeconds(n) == WholeSeconds(n)
  {
  }

  lemma {:induction false} SettingsServed(o: Outside, s: State, created: bool, p: PeerConfig)
    requires LawfulIP6(o) && LawfulPorts(o) && PeerSendable(p) && PeerInProtocol(p) && p.publicKey in s.peers
    ensures ServeAll(o, On(s, p.publicKey, created), SettingPairs(o, p)) ==
            Some(On(Set(s, p), p.publicKey, created))
  {
    hide HexText, Itoa, ServeAll, ServeLine, When, LawfulIP6, LawfulPorts, EndpointSendable, FormatEndpoint,
      WholeSeconds, KeepaliveSeconds, DropOwner, InInt64, SaidNets, SaidOps, Unmap;
    var k, q := p.publicKey, s.peers[p.publicKey];
    var psk, seconds := p.presharedKey.GetOr(ZeroKey()), WholeSeconds(p.keepalive.GetOr(0));
    SecondsServed(p.keepalive.GetOr(0));
    var r0 := On(s, k, created);
    PresharedServed(o, s, k, created, psk);
    ServeWhen(o, r0, p.presharedKey.Some?, "preshared_key", HexText(psk));
    var s1 := if p.presharedKey.Some? then WithPeer(s, k, q.(presharedKey := psk)) else s;
    EndpointPairServed(o, s1, created, p);
    var s2 := WithEndpointOf(s1, p);
    KeepaliveServed(o, s2, k, created, seconds);
    ServeWhen(o, On(s2, k, created), p.keepalive.Some?, "persistent_keepalive_interval", Itoa(seconds));
    var s3 := if p.keepalive.Some? then WithPeer(s2, k, s2.peers[k].(keepalive := seconds)) else s2;
    ReplaceServed(o, s3, k, created);
    ServeWhen(o, On(s3, k, created), p.replaceAllowedIPs, "replace_allowed_ips", "true");
    var a, b := When(p.presharedKey.Some?, ("preshared_key", HexText(psk))), EndpointPairs(o, p);
    var c := When(p.keepalive.Some?, ("persistent_keepalive_interval", Itoa(seconds)));
    ServeConcat(o, r0, a, b);
    ServeConcat(o, r0, a + b, c);
    ServeConcat(o, r0, a + b + c, When(p.replaceAllowedIPs, ("replace_allowed_ips", "true")));
    SetParts(s, s1, s2, s3, p);
  }

  function WithEndpointOf(s: State, p: PeerConfig): State
    requires p.publicKey in s.peers
  {
    if p.endpoint.None? then s
    else WithPeer(s, p.publicKey, s.peers[p.publicKey].(endpoint := ReadEndpointOf(p)))
  }

  lemma {:induction false} EndpointPairServed(o: Outside, s: State, created: bool, p: PeerConfig)
    requires LawfulIP6(o) && LawfulPorts(o) && PeerSendable(p) && p.publicKey in s.peers
    ensures ServeAll(o, On(s, p.publicKey, created), EndpointPairs(o, p)) ==
            Some(On(WithEndpointOf(s, p), p.publicKey, created))
  {
    hide ServeLine, FormatEndpoint, LawfulIP6, LawfulPorts, EndpointSendable, Unmap;
    if p.endpoint.Some? {
      EndpointServed(o, s, p.publicKey, created, p.endpoint.value);
      ServeOne(o, On(s, p.publicKey, created), "endpoint", FormatEndpoint(o, p.endpoint.value));
    }
  }

  /** The settings one after the other are the settings at once. */
  lemma {:induction false} SetParts(s: State, s1: State, s2: State, s3: State, p: PeerConfig)
    requires p.publicKey in s.peers && PeerInProtocol(p)
    requires var k := p.publicKey;
             && s1 == (if p.presharedKey.Some? then
                         WithPeer(s, k, s.peers[k].(presharedKey := p.presharedKey.value)) else s)
             && s2 == WithEndpointOf(s1, p)
             && s3 == (if p.keepalive.Some? then
                         WithPeer(s2, k, s2.peers[k].(keepalive := WholeSeconds(p.keepalive.value))) else s2)
    ensures Set(s, p) ==
            if p.replaceAllowedIPs then WithTable(s3, DropOwner(s3.table, p.publicKey)) else s3
  {
    hide WholeSeconds, KeepaliveSeconds, DropOwner, SaidNets, SaidOps, ReadEndpointOf;
    if p.keepalive.Some? {
      SecondsServed(p.keepalive.value);
    }
    var k := p.publicKey;
    assert s3.peers == s.peers[k := s3.peers[k]];
    SaidEndpoint(p);
  }

  lemma {:induction false} SaidEndpoint(p: PeerConfig)
    ensures p.endpoint.Some? <==> ReadEndpointOf(p).Some?
  {
  }

  // ----- one peer -----

  /** What the first lines of an entry lead to: a peer to be set, or none. */
  function Begun(s: State, p: PeerConfig): Serving {
    var k := p.publicKey;
    if Skipped(s, p) then Serving(s, None, false)
    else if p.remove then Serving(RemovePeer(s, k), None, false)
    else Serving(WithPeer(s, k, Current(s, k)), Some(k), k !in s.peers)
  }

  lemma {:induction false} MadeAndRemoved(s: State, k: Key)
    requires WellFormed(s) && k !in s.peers
    ensures RemovePeer(WithPeer(s, k, NEW_PEER), k) == s
  {
    assert s.peers[k := NEW_PEER] - {k} == s.peers;
  }

  lemma {:induction false} SamePeer(s: State, k: Key)
    requires k in s.peers
    ensures WithPeer(s, k, s.peers[k]) == s
  {
    assert s.peers[k := s.peers[k]] == s.peers;
  }

  /** The lines `remove` and `update_only` for a peer that is served, and for none. */
  lemma {:induction false} FlagLines(o: Outside, at: Serving)
    requires at.peer.Some? ==> at.peer.value in at.s.peers
    ensures at.peer.None? ==>
              ServeLine(o, at, "remove", "true") == Some(at) && ServeLine(o, at, "update_only", "true") == Some(at)
    ensures at.peer.Some? ==>
              && ServeLine(o, at, "remove", "true") == Some(Serving(RemovePeer(at.s, at.peer.value), None, false))
              && ServeLine(o, at, "update_only", "true") ==
                 Some(if at.created then Serving(RemovePeer(at.s, at.peer.value), None, false) else at)
  {
    hide RemovePeer, ReadKey32, Atoi, ReadUDPAddr, ServeNet, DropOwner;
  }

  lemma {:induction false} KeyLine(o: Outside, at: Serving, k: Key)
    ensures ServeLine(o, at, "public_key", HexText(k)) == Some(Start(at.s, k))
  {
    hide HexText, ReadKey32, Atoi, ServePeer;
    KeyServed(k);
  }

  lemma {:induction false} FlagsServed(o: Outside, at: Serving, p: PeerConfig)
    requires WellFormed(at.s)
    ensures ServeAll(o, at, FlagPairs(p)) == Some(Begun(at.s, p))
  {
    hide HexText, ServeAll, ServeLine, When, RemovePeer, WellFormed;
    var s, k := at.s, p.publicKey;
    var head, remove := [("public_key", HexText(k))], When(p.remove, ("remove", "true"));
    KeyLine(o, at, k);
    ServeOne(o, at, "public_key", HexText(k));
    var r1 := Start(s, k);
    FlagLines(o, r1);
    ServeWhen(o, r1, p.remove, "remove", "true");
    var r2 := if p.remove then Serving(RemovePeer(r1.s, k), None, false) else r1;
    FlagLines(o, r2);
    ServeWhen(o, r2, p.updateOnly, "update_only", "true");
    ServeConcat(o, at, head, remove);
    ServeConcat(o, at, head + remove, When(p.updateOnly, ("update_only", "true")));
    if k in s.peers {
      SamePeer(s, k);
    } else {
      MadeAndRemoved(s, k);
    }
  }

  /** No line of these is one of the device, or starts a peer. */
  ghost predicate OfPeer(pairs: seq<(string, string)>) {
    forall i :: 0 <= i < |pairs| ==> PeerWordOnly(pairs[i].0)
  }

  predicate PeerWordOnly(key: string) {
    || key == "preshared_key" || key == "endpoint" || key == "persistent_keepalive_interval"
    || key == "replace_allowed_ips" || key == "allowed_ip"
  }

  lemma {:induction false} DeadLine(o: Outside, s: State, key: string, value: string)
    requires PeerWordOnly(key)
    ensures ServeLine(o, Serving(s, None, false), key, value) == Some(Serving(s, None, false))
  {
    hide ReadKey32, Atoi, ReadUDPAddr, ServeNet;
  }

  lemma {:induction false} DeadServed(o: Outside, s: State, pairs: seq<(string, string)>)
    requires OfPeer(pairs)
    ensures ServeAll(o, Serving(s, None, false), pairs) == Some(Serving(s, None, false))
  {
    hide ServeLine, PeerWordOnly;
    if pairs == [] {
    } else {
      DeadServed(o, s, pairs[..|pairs| - 1]);
      DeadLine(o, s, pairs[|pairs| - 1].0, pairs[|pairs| - 1].1);
    }
  }

  lemma {:induction false} SettingsOfPeer(o: Outside, p: PeerConfig)
    ensures OfPeer(SettingPairs(o, p))
  {
    hide HexText, Itoa, FormatEndpoint, WholeSeconds;
  }

  lemma {:induction false} OpsOfPeer(o: Outside, ops: seq<AllowedIPConfig>)
    ensures OfPeer(OperationPairs(o, ops))
  {
    hide OperationText;
    if ops == [] {
    } else {
      OpsOfPeer(o, ops[..|ops| - 1]);
    }
  }

  /** The lines after the flags. */
  function BodyPairs(o: Outside, p: PeerConfig): seq<(string, string)> {
    SettingPairs(o, p) + OperationPairs(o, AddAll(p.allowedIPs)) + OperationPairs(o, p.operations)
  }

  lemma {:induction false} PairsAre(o: Outside, p: PeerConfig)
    ensures PeerPairs(o, p) == FlagPairs(p) + BodyPairs(o, p)
  {
    hide FlagPairs, SettingPairs, NetPairs, OperationPairs, AddAll;
    var a, b, c := SettingPairs(o, p), OperationPairs(o, AddAll(p.allowedIPs)), OperationPairs(o, p.operations);
    NetPairsAre(o, p.allowedIPs);
    Assoc(FlagPairs(p), a + b, c);
    Assoc(FlagPairs(p), a, b);
  }

  lemma {:induction false} BodyServed(o: Outside, s: State, created: bool, p: PeerConfig)
    requires LawfulIP6(o) && LawfulPorts(o) && PeerSendable(p) && PeerInProtocol(p) && p.publicKey in s.peers
    ensures var t, k := Set(s, p), p.publicKey;
            ServeAll(o, On(s, k, created), BodyPairs(o, p)) ==
            Some(On(WithTable(t, ApplyOps(t.table, k, Entries(SaidPeer(p)))), k, created))
  {
    hide ServeAll, SettingPairs, OperationPairs, AddAll, LawfulIP6, LawfulPorts, PeerSendable, PeerInProtocol, Set,
      SaidNets, SaidOps, ApplyOps;
    var k, t := p.publicKey, Set(s, p);
    SetKeeps(s, p);
    var a, b, c := SettingPairs(o, p), OperationPairs(o, AddAll(p.allowedIPs)), OperationPairs(o, p.operations);
    SettingsServed(o, s, created, p);
    OpsServed(o, t, k, created, AddAll(p.allowedIPs));
    var u := WithTable(t, ApplyOps(t.table, k, SaidOps(AddAll(p.allowedIPs))));
    OpsServed(o, u, k, created, p.operations);
    ServeConcat(o, On(s, k, created), a, b);
    ServeConcat(o, On(s, k, created), a + b, c);
    AddsAre(p.allowedIPs);
    ApplyOpsConcat(t.table, k, AddAll(SaidNets(p.allowedIPs)), SaidOps(p.operations));
  }

  lemma {:induction false} SetKeeps(s: State, p: PeerConfig)
    requires p.publicKey in s.peers
    ensures p.publicKey in Set(s, p).peers
  {
  }

  lemma {:induction false} DeadBody(o: Outside, s: State, p: PeerConfig)
    ensures ServeAll(o, Serving(s, None, false), BodyPairs(o, p)) == Some(Serving(s, None, false))
  {
    hide SettingPairs, OperationPairs, ServeAll, OfPeer, AddAll;
    SettingsOfPeer(o, p);
    OpsOfPeer(o, AddAll(p.allowedIPs));
    OpsOfPeer(o, p.operations);
    var r := Serving(s, None, false);
    DeadServed(o, s, SettingPairs(o, p));
    DeadServed(o, s, OperationPairs(o, AddAll(p.allowedIPs)));
    DeadServed(o, s, OperationPairs(o, p.operations));
    ServeConcat(o, r, SettingPairs(o, p), OperationPairs(o, AddAll(p.allowedIPs)));
    ServeConcat(o, r, SettingPairs(o, p) + OperationPairs(o, AddAll(p.allowedIPs)), OperationPairs(o, p.operations));
  }

  /** Setting a peer that was there or was just made is what the entry means. */
  lemma {:induction false} BegunSet(s: State, p: PeerConfig)
    requires !Skipped(s, p) && !p.remove
    ensures var b, k := WithPeer(s, p.publicKey, Current(s, p.publicKey)), p.publicKey;
            var t := Set(b, p);
            WithTable(t, ApplyOps(t.table, k, Entries(SaidPeer(p)))) == ApplyPeer(s, SaidPeer(p))
  {
    hide ApplyOps, Entries, SaidNets, SaidOps, ReadEndpointOf, DropOwner, KeepaliveSeconds;
    var k, was := p.publicKey, Current(s, p.publicKey);
    assert s.peers[k := was][k := Settings(was, SaidPeer(p))] == s.peers[k := Settings(was, SaidPeer(p))];
  }

  /** The lines of an entry do what the entry means. */
  lemma {:induction false} PeerServed(o: Outside, at: Serving, p: PeerConfig)
    requires LawfulIP6(o) && LawfulPorts(o) && PeerSendable(p) && PeerInProtocol(p) && WellFormed(at.s)
    ensures var r := ServeAll(o, at, PeerPairs(o, p));
            r.Some? && r.value.s == ApplyPeer(at.s, SaidPeer(p))
  {
    hide ServeAll, FlagPairs, BodyPairs, LawfulIP6, LawfulPorts, PeerSendable, PeerInProtocol, WellFormed, RemovePeer,
      Set, ApplyOps, SaidNets, SaidOps, Entries, Settings;
    var s, k := at.s, p.publicKey;
    PairsAre(o, p);
    FlagsServed(o, at, p);
    ServeConcat(o, at, FlagPairs(p), BodyPairs(o, p));
    if Skipped(s, p) {
      DeadBody(o, s, p);
    } else if p.remove {
      DeadBody(o, RemovePeer(s, k), p);
    } else {
      BodyServed(o, WithPeer(s, k, Current(s, k)), k !in s.peers, p);
      BegunSet(s, p);
    }
  }

  lemma {:induction false} PeersServed(o: Outside, at: Serving, ps: seq<PeerConfig>)
    requires LawfulIP6(o) && LawfulPorts(o) && WellFormed(at.s)
    requires forall i :: 0 <= i < |ps| ==> PeerSendable(ps[i]) && PeerInProtocol(ps[i])
    ensures var r := ServeAll(o, at, PeersPairs(o, ps));
            r.Some? && r.value.s == ApplyPeers(at.s, SaidPeers(ps))
  {
    hide ServeAll, PeerPairs, LawfulIP6, LawfulPorts, PeerSendable, PeerInProtocol, WellFormed, ApplyPeer, SaidPeer;
    if ps == [] {
      NothingServed(o, at);
    } else {
      var init, p := ps[..|ps| - 1], ps[|ps| - 1];
      PeersServed(o, at, init);
      ApplyPeersWellFormed(at.s, SaidPeers(init));
      var before := ServeAll(o, at, PeersPairs(o, init)).value;
      PeerServed(o, before, p);
      ServeConcat(o, at, PeersPairs(o, init), PeerPairs(o, p));
      assert SaidPeers(ps)[..|init|] == SaidPeers(init);
    }
  }

  lemma {:induction false} NothingServed(o: Outside, at: Serving)
    ensures ServeAll(o, at, []) == Some(at)
  {
  }

  // ----- the whole text -----

  /**
   * Given the text of a configuration, a daemon reads every line and does to its device what the
   * configuration means, with IPv4-mapped addresses said as IPv4.
   */
  lemma {:induction false} DaemonObeys(o: Outside, s: State, cfg: Config)
    requires LawfulIP6(o) && LawfulPorts(o) && Sendable(cfg) && InProtocol(cfg) && WellFormed(s)
    ensures Obeyed(o, s, Unlines(LinesOf(ConfigPairs(o, cfg)))) == Some(ApplyConfig(s, Said(cfg)))
  {
    hide ServeAll, HeaderPairs, PeersPairs, LawfulIP6, LawfulPorts, PeerSendable, PeerInProtocol, WellFormed,
      ApplyHeader, SaidPeers, AllSafe, LinesOf, PairsOf, Lines, Unlines, ApplyPeers;
    var pairs := ConfigPairs(o, cfg);
    ConfigSafe(o, cfg);
    LinesSafe(pairs);
    LinesUnlines(LinesOf(pairs));
    SafePairsOf(pairs);
    HeaderServed(o, s, cfg);
    HeaderWellFormed(s, cfg);
    PeersServed(o, Serving(ApplyHeader(s, cfg), None, false), cfg.peers);
    ServeConcat(o, Serving(s, None, false), HeaderPairs(cfg), PeersPairs(o, cfg.peers));
    SaidHeader(s, cfg);
  }

  lemma {:induction false} SaidHeader(s: State, cfg: Config)
    ensures ApplyHeader(s, Said(cfg)) == ApplyHeader(s, cfg)
  {
  }

  lemma {:induction false} HeaderWellFormed(s: State, cfg: Config)
    requires WellFormed(s)
    ensures WellFormed(ApplyHeader(s, cfg))
  {
  }

  /** The text says everything of an entry without IPv4-mapped addresses. */
  predicate Sayable(p: PeerConfig) {
    && (p.endpoint.Some? ==> Unmap(p.endpoint.value.ip) == p.endpoint.value.ip)
    && (forall i :: 0 <= i < |p.allowedIPs| ==> !MappedNet(p.allowedIPs[i]))
    && (forall i :: 0 <= i < |p.operations| ==> !MappedNet(p.operations[i].net))
  }

  lemma {:induction false} SaidNetsSame(nets: seq<Cidr>)
    requires forall i :: 0 <= i < |nets| ==> !MappedNet(nets[i])
    ensures SaidNets(nets) == nets
  {
    hide Mapped;
    if nets == [] {
    } else {
      SaidNetsSame(nets[..|nets| - 1]);
    }
  }

  lemma {:induction false} SaidOpsSame(ops: seq<AllowedIPConfig>)
    requires forall i :: 0 <= i < |ops| ==> !MappedNet(ops[i].net)
    ensures SaidOps(ops) == ops
  {
    hide Mapped;
    if ops == [] {
    } else {
      SaidOpsSame(ops[..|ops| - 1]);
    }
  }

  lemma {:induction false} SaidSame(ps: seq<PeerConfig>)
    requires forall i :: 0 <= i < |ps| ==> Sayable(ps[i])
    ensures SaidPeers(ps) == ps
  {
    hide Unmap, MappedNet;
    if ps == [] {
    } else {
      var p := ps[|ps| - 1];
      SaidSame(ps[..|ps| - 1]);
      SaidNetsSame(p.allowedIPs);
      SaidOpsSame(p.operations);
      assert SaidPeer(p) == p;
    }
  }

  /** Without such addresses the daemon does exactly what the configuration means. */
  lemma {:induction false} DaemonObeysExactly(o: Outside, s: State, cfg: Config)
    requires LawfulIP6(o) && LawfulPorts(o) && Sendable(cfg) && InProtocol(cfg) && WellFormed(s)
    requires forall i :: 0 <= i < |cfg.peers| ==> Sayable(cfg.peers[i])
    ensures Obeyed(o, s, Unlines(LinesOf(ConfigPairs(o, cfg)))) == Some(ApplyConfig(s, cfg))
  {
    hide Obeyed, ConfigPairs, ApplyConfig, LawfulIP6, LawfulPorts, Sendable, InProtocol, WellFormed, Sayable, SaidPeers;
    DaemonObeys(o, s, cfg);
    SaidSame(cfg.peers);
    assert Said(cfg) == cfg;
  }
}
