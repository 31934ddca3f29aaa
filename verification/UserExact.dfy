/** Which configurations survive the userspace protocol: exactly those without removals. */
module UserExact {
  import opened Wrappers
  import opened WgTypes
  import opened Seqs
  import opened Text
  import opened Numbers
  import opened Addresses
  import opened Endpoints
  import opened ConfigText
  import opened UserParse
  import opened UserText
  import opened UserRoundTrip

  // ----- the settings of a peer -----

  function WithKey(q: Peer, p: PeerConfig): Peer {
    if p.presharedKey.Some? then q.(presharedKey := p.presharedKey.value, hasPresharedKey := true) else q
  }

  function WithEndpoint(q: Peer, p: PeerConfig): Peer {
    if p.endpoint.Some? then q.(endpoint := ReadEndpointOf(p)) else q
  }

  function WithKeepalive(q: Peer, p: PeerConfig): Peer {
    if p.keepalive.Some? then q.(keepalive := WholeSeconds(p.keepalive.value) * SECOND, hasKeepalive := true) else q
  }

  function Filled(q: Peer, p: PeerConfig): Peer {
    WithKeepalive(WithEndpoint(WithKey(q, p), p), p)
  }

  lemma {:induction false} AtConsistent(d: Device, ps: seq<Peer>)
    ensures Consistent(At(d, ps))
  {
  }

  lemma {:induction false} KeyPairReads(o: Outside, d: Device, ps: seq<Peer>, q: Peer, p: PeerConfig)
    ensures Consistent(At(d, ps + [q]))
    ensures ReadAll(o, At(d, ps + [q]),
              When(p.presharedKey.Some?, ("preshared_key", HexText(p.presharedKey.GetOr(ZeroKey()))))) ==
            At(d, ps + [WithKey(q, p)])
  {
    hide At, HexText, ReadAll, Step, Consistent;
    AtConsistent(d, ps + [q]);
    var k := p.presharedKey.GetOr(ZeroKey());
    ReadWhen(o, At(d, ps + [q]), p.presharedKey.Some?, "preshared_key", HexText(k));
    StepPreshared(o, d, ps, q, k);
  }

  lemma {:induction false} EndpointPairReads(o: Outside, d: Device, ps: seq<Peer>, q: Peer, p: PeerConfig)
    requires LawfulIP6(o) && LawfulPorts(o) && PeerSendable(p)
    ensures Consistent(At(d, ps + [q]))
              && ReadAll(o, At(d, ps + [q]), EndpointPairs(o, p)) == At(d, ps + [WithEndpoint(q, p)])
  {
    hide At, FormatEndpoint, Step, Consistent, Unmap, EndpointSendable, LawfulIP6, LawfulPorts;
    AtConsistent(d, ps + [q]);
    if p.endpoint.Some? {
      ReadOne(o, At(d, ps + [q]), "endpoint", FormatEndpoint(o, p.endpoint.value));
      StepEndpoint(o, d, ps, q, p.endpoint.value);
    }
  }

  lemma {:induction false} KeepalivePairReads(o: Outside, d: Device, ps: seq<Peer>, q: Peer, p: PeerConfig)
    requires PeerSendable(p)
    ensures Consistent(At(d, ps + [q]))
    ensures ReadAll(o, At(d, ps + [q]),
                    When(p.keepalive.Some?,
                      ("persistent_keepalive_interval", Itoa(WholeSeconds(p.keepalive.GetOr(0)))))) ==
            At(d, ps + [WithKeepalive(q, p)])
  {
    hide At, Itoa, ReadAll, Step, Consistent, WholeSeconds, EndpointSendable;
    AtConsistent(d, ps + [q]);
    var n := p.keepalive.GetOr(0);
    ReadWhen(o, At(d, ps + [q]), p.keepalive.Some?, "persistent_keepalive_interval", Itoa(WholeSeconds(n)));
    StepKeepalive(o, d, ps, q, n);
  }

  lemma {:induction false} SettingsRead(o: Outside, d: Device, ps: seq<Peer>, q: Peer, p: PeerConfig)
    requires LawfulIP6(o) && LawfulPorts(o) && PeerSendable(p)
    ensures Consistent(At(d, ps + [q])) && ReadAll(o, At(d, ps + [q]), SettingPairs(o, p)) == At(d, ps + [Filled(q, p)])
  {
    hide At, HexText, Itoa, ReadAll, Step, Consistent, WithKey, WithEndpoint, WithKeepalive, EndpointPairs, When,
      LawfulIP6, LawfulPorts, PeerSendable;
    var key := When(p.presharedKey.Some?, ("preshared_key", HexText(p.presharedKey.GetOr(ZeroKey()))));
    var endpoint := EndpointPairs(o, p);
    var keepalive := When(p.keepalive.Some?,
      ("persistent_keepalive_interval", Itoa(WholeSeconds(p.keepalive.GetOr(0)))));
    var replace := When(p.replaceAllowedIPs, ("replace_allowed_ips", "true"));
    var r, q1, q2, q3 := At(d, ps + [q]), WithKey(q, p), WithEndpoint(WithKey(q, p), p), Filled(q, p);
    AtConsistent(d, ps + [q]);
    AtConsistent(d, ps + [q3]);
    KeyPairReads(o, d, ps, q, p);
    EndpointPairReads(o, d, ps, q1, p);
    KeepalivePairReads(o, d, ps, q2, p);
    SilentPeerWords();
    Silent(o, d, ps + [q3], "replace_allowed_ips", "true");
    ReadWhen(o, At(d, ps + [q3]), p.replaceAllowedIPs, "replace_allowed_ips", "true");
    ReadAllConcat(o, r, key, endpoint);
    ReadAllConcat(o, r, key + endpoint, keepalive);
    ReadAllConcat(o, r, key + endpoint + keepalive, replace);
  }

  // ----- the networks of a peer -----

  lemma {:induction false} NetsRead(o: Outside, d: Device, ps: seq<Peer>, q: Peer, nets: seq<Cidr>)
    requires LawfulIP6(o)
    ensures Consistent(At(d, ps + [q]))
    ensures ReadAll(o, At(d, ps + [q]), NetPairs(o, nets)) == At(d, ps + [WithNets(q, q.allowedIPs + HeardNets(nets))])
    decreases |nets|
  {
    hide At, Step, Consistent, WriteCidr, Heard, LawfulIP6;
    AtConsistent(d, ps + [q]);
    if nets == [] {
      Assoc(q.allowedIPs, [], []);
    } else {
      var init, c := nets[..|nets| - 1], nets[|nets| - 1];
      NetsRead(o, d, ps, q, init);
      var q' := WithNets(q, q.allowedIPs + HeardNets(init));
      StepNet(o, d, ps, q', c);
      Assoc(q.allowedIPs, HeardNets(init), [Heard(c)]);
    }
  }

  lemma {:induction false} ErrorStays(o: Outside, r: Reading, key: string, value: string)
    requires Consistent(r) && r.err.Some?
    ensures Step(o, r, key, value).err.Some?
  {
    StepError(o, r, key, value);
  }

  lemma {:induction false} ErrorStaysAll(o: Outside, r: Reading, pairs: seq<(string, string)>)
    requires Consistent(r) && r.err.Some?
    ensures ReadAll(o, r, pairs).err.Some?
    decreases |pairs|
  {
    hide Step, Consistent;
    if pairs == [] {
    } else {
      ErrorStaysAll(o, r, pairs[..|pairs| - 1]);
      var (key, value) := pairs[|pairs| - 1];
      ErrorStays(o, ReadAll(o, r, pairs[..|pairs| - 1]), key, value);
    }
  }

  lemma {:induction false} NoRemovalsSnoc(ops: seq<AllowedIPConfig>)
    requires ops != []
    ensures NoRemovals(ops) <==> NoRemovals(ops[..|ops| - 1]) && ops[|ops| - 1].operation != AllowedIPRemove
  {
  }

  lemma {:induction false} OneOperation(o: Outside, d: Device, ps: seq<Peer>, q: Peer, op: AllowedIPConfig)
    requires LawfulIP6(o)
    ensures Consistent(At(d, ps + [q]))
    ensures var r := Step(o, At(d, ps + [q]), "allowed_ip", OperationText(o, op));
            if op.operation == AllowedIPRemove then r.err.Some?
              else r == At(d, ps + [WithNets(q, q.allowedIPs + [Heard(op.net)])])
  {
    hide At, Step, Consistent, WriteCidr, Heard, LawfulIP6;
    AtConsistent(d, ps + [q]);
    var text := WriteCidr(o, op.net);
    if op.operation == AllowedIPRemove {
      StepSignedNet(o, d, ps, q, "-" + text);
    } else {
      assert "" + text == text;
      StepNet(o, d, ps, q, op.net);
    }
  }

  /** Operations are read as networks, up to the first removal. */
  lemma {:induction false} OperationsRead(o: Outside, d: Device, ps: seq<Peer>, q: Peer, ops: seq<AllowedIPConfig>)
    requires LawfulIP6(o)
    ensures Consistent(At(d, ps + [q]))
    ensures var r := ReadAll(o, At(d, ps + [q]), OperationPairs(o, ops));
            if NoRemovals(ops) then r == At(d, ps + [WithNets(q, q.allowedIPs + HeardOperations(ops))]) else r.err.Some?
    decreases |ops|
  {
    hide At, Step, Consistent, OperationText, Heard, LawfulIP6, NoRemovals;
    AtConsistent(d, ps + [q]);
    if ops == [] {
      Assoc(q.allowedIPs, [], []);
      NothingToRemove();
    } else {
      var init, op := ops[..|ops| - 1], ops[|ops| - 1];
      NoRemovalsSnoc(ops);
      OperationsRead(o, d, ps, q, init);
      var before := ReadAll(o, At(d, ps + [q]), OperationPairs(o, init));
      if NoRemovals(init) {
        var q' := WithNets(q, q.allowedIPs + HeardOperations(init));
        OneOperation(o, d, ps, q', op);
        Assoc(q.allowedIPs, HeardOperations(init), [Heard(op.net)]);
      } else {
        ErrorStays(o, before, "allowed_ip", OperationText(o, op));
      }
    }
  }

  lemma {:induction false} NothingToRemove()
    ensures NoRemovals([])
  {
  }

  // ----- peers -----

  lemma {:induction false} DescribedParts(p: PeerConfig)
    ensures var q := Filled(Started(p), p);
            q.allowedIPs == [] && WithNets(q, HeardNets(p.allowedIPs) + HeardOperations(p.operations)) == Described(p)
  {
    hide HeardNets, HeardOperations;
    assert WholeSeconds(0) == 0;
  }

  lemma {:induction false} PeerReads(o: Outside, d: Device, ps: seq<Peer>, p: PeerConfig)
    requires LawfulIP6(o) && LawfulPorts(o) && PeerSendable(p)
    ensures Consistent(At(d, ps))
    ensures var r := ReadAll(o, At(d, ps), PeerPairs(o, p));
            if NoRemovals(p.operations) then r == At(d, ps + [Described(p)]) else r.err.Some?
  {
    hide At, Consistent, ReadAll, FlagPairs, SettingPairs, NetPairs, OperationPairs, Described, Started, Filled,
      NoRemovals, HeardNets, HeardOperations, LawfulIP6, LawfulPorts, PeerSendable;
    AtConsistent(d, ps);
    var r, q := At(d, ps), Filled(Started(p), p);
    DescribedParts(p);
    FlagsRead(o, d, ps, p);
    SettingsRead(o, d, ps, Started(p), p);
    NetsRead(o, d, ps, q, p.allowedIPs);
    assert [] + HeardNets(p.allowedIPs) == HeardNets(p.allowedIPs);
    var q' := WithNets(q, HeardNets(p.allowedIPs));
    OperationsRead(o, d, ps, q', p.operations);
    ReadAllConcat(o, r, FlagPairs(p), SettingPairs(o, p));
    ReadAllConcat(o, r, FlagPairs(p) + SettingPairs(o, p), NetPairs(o, p.allowedIPs));
    ReadAllConcat(o, r, FlagPairs(p) + SettingPairs(o, p) + NetPairs(o, p.allowedIPs), OperationPairs(o, p.operations));
  }

  lemma {:induction false} NothingRemovedSnoc(ps: seq<PeerConfig>)
    requires ps != []
    ensures NothingRemoved(ps) <==> NothingRemoved(ps[..|ps| - 1]) && NoRemovals(ps[|ps| - 1].operations)
  {
    hide NoRemovals;
  }

  lemma {:induction false} PeersRead(o: Outside, d: Device, ps: seq<PeerConfig>)
    requires LawfulIP6(o) && LawfulPorts(o) && forall i :: 0 <= i < |ps| ==> PeerSendable(ps[i])
    ensures Consistent(At(d, []))
    ensures var r := ReadAll(o, At(d, []), PeersPairs(o, ps));
            if NothingRemoved(ps) then r == At(d, DescribedAll(ps)) else r.err.Some?
    decreases |ps|
  {
    hide At, Consistent, ReadAll, PeerPairs, Described, NothingRemoved, NoRemovals, LawfulIP6, LawfulPorts,
      PeerSendable;
    AtConsistent(d, []);
    if ps == [] {
      ReadNone(o, At(d, []));
      NothingFirst();
    } else {
      var init, p := ps[..|ps| - 1], ps[|ps| - 1];
      PeersRead(o, d, init);
      NothingRemovedSnoc(ps);
      ReadAllConcat(o, At(d, []), PeersPairs(o, init), PeerPairs(o, p));
      if NothingRemoved(init) {
        PeerReads(o, d, DescribedAll(init), p);
      } else {
        ErrorStaysAll(o, ReadAll(o, At(d, []), PeersPairs(o, init)), PeerPairs(o, p));
      }
    }
  }

  lemma {:induction false} ReadNone(o: Outside, r: Reading)
    requires Consistent(r)
    ensures ReadAll(o, r, []) == r
  {
  }

  lemma {:induction false} NothingFirst()
    ensures NothingRemoved([])
  {
  }

  /** The lines of a configuration describe it, or fail at its first removal. */
  lemma {:induction false} ConfigReads(o: Outside, cfg: Config)
    requires LawfulIP6(o) && LawfulPorts(o) && Sendable(cfg)
    ensures var r := ReadAll(o, NOTHING, ConfigPairs(o, cfg));
            if NothingRemoved(cfg.peers) then r == At(DescribedDevice(cfg, []), DescribedAll(cfg.peers))
              else r.err.Some?
  {
    hide At, ReadAll, HeaderPairs, PeersPairs, NothingRemoved, LawfulIP6, LawfulPorts, DescribedDevice, PeerSendable;
    HeaderReads(o, cfg);
    PeersRead(o, DescribedDevice(cfg, []), cfg.peers);
    ReadAllConcat(o, NOTHING, HeaderPairs(cfg), PeersPairs(o, cfg.peers));
  }

  // ----- the text -----

  lemma {:induction false} PairsOfLines(pairs: seq<(string, string)>)
    requires forall i :: 0 <= i < |pairs| ==> PairSafe(pairs[i])
    ensures PairsOf(LinesOf(pairs)) == pairs
  {
    hide PairSafe, KeyValue, DropCR, LineOf;
    if pairs == [] {
    } else {
      var init, x := pairs[..|pairs| - 1], pairs[|pairs| - 1];
      PairsOfLines(init);
      PairReads(x);
      assert LinesOf(pairs)[..|pairs| - 1] == LinesOf(init);
    }
  }

  /** A key and a value whose line is read as that key and value. */
  predicate PairSafe(pair: (string, string)) {
    pair.0 != "" && Safe(pair.0) && Safe(pair.1)
  }

  predicate Safe(s: string) {
    Token(s) && Absent(s, '=')
  }

  lemma {:induction false} PairReads(pair: (string, string))
    requires PairSafe(pair)
    ensures var line := LineOf(pair);
            DropCR(line) == line && line != "" && KeyValue(line) == Some(pair) && Absent(line, '\n')
  {
    var line := LineOf(pair);
    assert forall i :: 0 <= i < |line| ==> Graphic(line[i]) || line[i] == '=';
    var parts := [pair.0, pair.1];
    assert parts[1..] == [pair.1];
    assert Join(parts, "=") == line;
    SplitJoin(parts, '=');
  }

  lemma {:induction false} SafeConcat(a: seq<(string, string)>, b: seq<(string, string)>)
    requires AllSafe(a) && AllSafe(b)
    ensures AllSafe(a + b)
  {
    hide PairSafe;
  }

  predicate AllSafe(pairs: seq<(string, string)>) {
    forall i :: 0 <= i < |pairs| ==> PairSafe(pairs[i])
  }

  lemma {:induction false} SafeWhen(condition: bool, key: string, value: string)
    requires condition ==> key != "" && Safe(key) && Safe(value)
    ensures AllSafe(When(condition, (key, value)))
  {
    hide Safe;
  }

  lemma {:induction false} DeviceKeysSafe()
    ensures Safe("private_key") && Safe("listen_port") && Safe("fwmark")
  {
  }

  lemma {:induction false} FlagKeysSafe()
    ensures Safe("remove") && Safe("update_only") && Safe("public_key") && Safe("true")
  {
  }

  lemma {:induction false} ReplaceKeysSafe()
    ensures Safe("replace_peers") && Safe("replace_allowed_ips")
  {
    ReplacePeersSafe();
    ReplaceNetsSafe();
  }

  lemma {:induction false} ReplacePeersSafe()
    ensures Safe("replace_peers")
  {
  }

  lemma {:induction false} ReplaceNetsSafe()
    ensures Safe("replace_allowed_ips")
  {
  }

  lemma {:induction false} SettingKeysSafe()
    ensures Safe("preshared_key") && Safe("persistent_keepalive_interval")
  {
    PresharedKeySafe();
    KeepaliveKeySafe();
  }

  lemma {:induction false} PresharedKeySafe()
    ensures Safe("preshared_key")
  {
  }

  lemma {:induction false} KeepaliveKeySafe()
    ensures Safe("persistent_keepalive_interval")
  {
  }

  lemma {:induction false} HexIsSafe(b: seq<byte>)
    ensures Safe(HexText(b))
  {
    HexReads(b);
  }

  lemma {:induction false} NumberIsSafe(n: int)
    requires InInt64(n)
    ensures Safe(Itoa(n))
  {
    IntReadsBack(n);
  }

  lemma {:induction false} HeaderSafe(cfg: Config)
    requires InInt64(cfg.listenPort.GetOr(0)) && InInt64(cfg.firewallMark.GetOr(0))
    ensures AllSafe(HeaderPairs(cfg))
  {
    hide AllSafe, HexText, Itoa, When, Safe;
    DeviceKeysSafe();
    FlagKeysSafe();
    ReplaceKeysSafe();
    NumberIsSafe(cfg.listenPort.GetOr(0));
    NumberIsSafe(cfg.firewallMark.GetOr(0));
    HexIsSafe(cfg.privateKey.GetOr(ZeroKey()));
    var key := ("private_key", HexText(cfg.privateKey.GetOr(ZeroKey())));
    var port := ("listen_port", Itoa(cfg.listenPort.GetOr(0)));
    var mark := ("fwmark", Itoa(cfg.firewallMark.GetOr(0)));
    SafeWhen(cfg.privateKey.Some?, key.0, key.1);
    SafeWhen(cfg.listenPort.Some?, port.0, port.1);
    SafeWhen(cfg.firewallMark.Some?, mark.0, mark.1);
    SafeWhen(cfg.replacePeers, "replace_peers", "true");
    SafeConcat(When(cfg.privateKey.Some?, key), When(cfg.listenPort.Some?, port));
    SafeConcat(When(cfg.privateKey.Some?, key) + When(cfg.listenPort.Some?, port), When(cfg.firewallMark.Some?, mark));
    SafeConcat(When(cfg.privateKey.Some?, key) + When(cfg.listenPort.Some?, port) + When(cfg.firewallMark.Some?, mark),
               When(cfg.replacePeers, ("replace_peers", "true")));
  }

  lemma {:induction false} FlagsSafe(p: PeerConfig)
    ensures AllSafe(FlagPairs(p))
  {
    hide AllSafe, HexText, When, Safe;
    FlagKeysSafe();
    HexIsSafe(p.publicKey);
    var key := ("public_key", HexText(p.publicKey));
    SafeWhen(true, key.0, key.1);
    assert When(true, key) == [key] by {
      OneWhen(key);
    }
    SafeWhen(p.remove, "remove", "true");
    SafeWhen(p.updateOnly, "update_only", "true");
    SafeConcat([key], When(p.remove, ("remove", "true")));
    SafeConcat([key] + When(p.remove, ("remove", "true")), When(p.updateOnly, ("update_only", "true")));
  }

  lemma {:induction false} OneWhen<T>(x: T)
    ensures When(true, x) == [x]
  {
  }

  lemma {:induction false} EndpointSafe(o: Outside, p: PeerConfig)
    requires LawfulIP6(o) && LawfulPorts(o) && PeerSendable(p)
    ensures AllSafe(EndpointPairs(o, p))
  {
    hide FormatEndpoint, PairSafe, LawfulIP6, LawfulPorts;
    if p.endpoint.Some? {
      EndpointTextSafe(o, p.endpoint.value);
    }
  }

  lemma {:induction false} EndpointTextSafe(o: Outside, e: UDPAddr)
    requires LawfulIP6(o) && EndpointSendable(e)
    ensures PairSafe(("endpoint", FormatEndpoint(o, e)))
  {
    hide WriteIP, Format, ReadAddr, Unmap, LawfulIP6;
    var ip, port := WriteIP(o, e.ip), Format(e.port, 10);
    AddrRoundTrip(o, e.ip);
    AddrNoEquals(o, e.ip);
    PortText(e.port);
    DigitsOnly(e.port);
  }

  lemma {:induction false} AddrNoEquals(o: Outside, ip: IP)
    requires LawfulIP6(o)
    ensures Absent(WriteIP(o, ip), '=')
  {
    match Unmap(ip)
    case IP4(b) => IP4RoundTrip(b);
    case IP6(b) => assert IP6Text(o.writeIP6(b));
  }

  lemma {:induction false} SettingsSafe(o: Outside, p: PeerConfig)
    requires LawfulIP6(o) && LawfulPorts(o) && PeerSendable(p)
    ensures AllSafe(SettingPairs(o, p))
  {
    hide AllSafe, HexText, Itoa, When, EndpointPairs, LawfulIP6, LawfulPorts, EndpointSendable, WholeSeconds, Safe;
    SettingKeysSafe();
    ReplaceKeysSafe();
    FlagKeysSafe();
    var key := ("preshared_key", HexText(p.presharedKey.GetOr(ZeroKey())));
    var keepalive := ("persistent_keepalive_interval", Itoa(WholeSeconds(p.keepalive.GetOr(0))));
    HexIsSafe(p.presharedKey.GetOr(ZeroKey()));
    SecondsFit(p.keepalive.GetOr(0));
    NumberIsSafe(WholeSeconds(p.keepalive.GetOr(0)));
    EndpointSafe(o, p);
    SafeWhen(p.presharedKey.Some?, key.0, key.1);
    SafeWhen(p.keepalive.Some?, keepalive.0, keepalive.1);
    SafeWhen(p.replaceAllowedIPs, "replace_allowed_ips", "true");
    SafeConcat(When(p.presharedKey.Some?, key), EndpointPairs(o, p));
    SafeConcat(When(p.presharedKey.Some?, key) + EndpointPairs(o, p), When(p.keepalive.Some?, keepalive));
    SafeConcat(When(p.presharedKey.Some?, key) + EndpointPairs(o, p) + When(p.keepalive.Some?, keepalive),
               When(p.replaceAllowedIPs, ("replace_allowed_ips", "true")));
  }

  lemma {:induction false} CidrSafe(o: Outside, c: Cidr, prefix: string)
    requires LawfulIP6(o) && (prefix == "" || prefix == "-")
    ensures PairSafe(("allowed_ip", prefix + WriteCidr(o, c)))
  {
    hide WriteCidr, WriteIP, Format, Spoken, LawfulIP6, ReadCidr;
    CidrRoundTrip(o, c);
    CidrText(o, c);
    AddrNoEquals(o, CidrIP(Spoken(c)));
    DigitsOnly(CidrOnes(Spoken(c)));
  }

  lemma {:induction false} NetsSafe(o: Outside, nets: seq<Cidr>)
    requires LawfulIP6(o)
    ensures AllSafe(NetPairs(o, nets))
  {
    hide WriteCidr, PairSafe, LawfulIP6;
    if nets == [] {
    } else {
      NetsSafe(o, nets[..|nets| - 1]);
      var c := nets[|nets| - 1];
      CidrSafe(o, c, "");
      assert "" + WriteCidr(o, c) == WriteCidr(o, c);
    }
  }

  lemma {:induction false} OperationsSafe(o: Outside, ops: seq<AllowedIPConfig>)
    requires LawfulIP6(o)
    ensures AllSafe(OperationPairs(o, ops))
  {
    hide WriteCidr, PairSafe, LawfulIP6;
    if ops == [] {
    } else {
      OperationsSafe(o, ops[..|ops| - 1]);
      var op := ops[|ops| - 1];
      CidrSafe(o, op.net, if op.operation == AllowedIPRemove then "-" else "");
    }
  }

  lemma {:induction false} PeersSafe(o: Outside, ps: seq<PeerConfig>)
    requires LawfulIP6(o) && LawfulPorts(o) && forall i :: 0 <= i < |ps| ==> PeerSendable(ps[i])
    ensures AllSafe(PeersPairs(o, ps))
  {
    hide AllSafe, FlagPairs, SettingPairs, NetPairs, OperationPairs, LawfulIP6, LawfulPorts, PeerSendable;
    if ps == [] {
      NothingSafe();
    } else {
      var init, p := ps[..|ps| - 1], ps[|ps| - 1];
      PeersSafe(o, init);
      FlagsSafe(p);
      SettingsSafe(o, p);
      NetsSafe(o, p.allowedIPs);
      OperationsSafe(o, p.operations);
      SafeConcat(FlagPairs(p), SettingPairs(o, p));
      SafeConcat(FlagPairs(p) + SettingPairs(o, p), NetPairs(o, p.allowedIPs));
      SafeConcat(FlagPairs(p) + SettingPairs(o, p) + NetPairs(o, p.allowedIPs), OperationPairs(o, p.operations));
      SafeConcat(PeersPairs(o, init), PeerPairs(o, p));
    }
  }

  lemma {:induction false} NothingSafe()
    ensures AllSafe([])
  {
  }

  lemma {:induction false} LinesOfAt(pairs: seq<(string, string)>, i: nat)
    requires i < |pairs|
    ensures LinesOf(pairs)[i] == LineOf(pairs[i])
  {
    if i == |pairs| - 1 {
    } else {
      LinesOfAt(pairs[..|pairs| - 1], i);
    }
  }

  lemma {:induction false} LinesSafe(pairs: seq<(string, string)>)
    requires AllSafe(pairs)
    ensures AllAbsent(LinesOf(pairs), '\n')
    ensures forall i :: 0 <= i < |pairs| ==>
              DropCR(LinesOf(pairs)[i]) != "" && KeyValue(DropCR(LinesOf(pairs)[i])).Some?
  {
    hide PairSafe, LineOf, DropCR, KeyValue;
    forall i | 0 <= i < |pairs|
      ensures Absent(LinesOf(pairs)[i], '\n')
      ensures DropCR(LinesOf(pairs)[i]) != "" && KeyValue(DropCR(LinesOf(pairs)[i])).Some?
    {
      LinesOfAt(pairs, i);
      PairReads(pairs[i]);
    }
  }

  /** No line is too long for the scanner. */
  predicate Fits(lines: seq<string>) {
    forall i :: 0 <= i < |lines| ==> ByteLength(lines[i]) < 65536
  }

  /** All lines are read, or the first that is not is too long. */
  lemma {:induction false} AllCounted(lines: seq<string>)
    requires forall i :: 0 <= i < |lines| ==> DropCR(lines[i]) != "" && KeyValue(DropCR(lines[i])).Some?
    ensures PairCount(lines) == |lines| <==> Fits(lines)
    ensures PairCount(lines) < |lines| ==> ByteLength(lines[PairCount(lines)]) >= MAX_TOKEN
  {
    hide DropCR, KeyValue, ByteLength, PairCount;
    var n := PairCount(lines);
    if n < |lines| {
      PairCountStops(lines, n);
      assert ByteLength(lines[n]) >= MAX_TOKEN;
    }
    forall i | 0 <= i < n
      ensures ByteLength(lines[i]) < MAX_TOKEN
    {
      PairCountStops(lines, i);
    }
  }

  /**
   * Writing a configuration and parsing the text: exactly when no operation removes a
   * network (and no line exceeds the scanner's token size) the outcome is the described
   * device, with each field that was set flagged, the peers in order, and the networks
   * followed by those of the operations.
   */
  lemma {:induction false} ConfigRoundTrip(o: Outside, cfg: Config, publicKey: Key -> Key)
    requires LawfulIP6(o) && LawfulPorts(o) && Sendable(cfg)
    ensures var lines := LinesOf(ConfigPairs(o, cfg));
            var r := Outcome(o, Unlines(lines), publicKey);
            && (r.Ok? <==> NothingRemoved(cfg.peers) && Fits(lines))
            && (r.Ok? ==> r == Finish(DescribedDevice(cfg, DescribedAll(cfg.peers)), publicKey))
  {
    hide At, ReadAll, ConfigPairs, NothingRemoved, LawfulIP6, LawfulPorts, DescribedDevice, PeerSendable, AllSafe,
      Fits, LinesOf, PairsOf, DropCR, KeyValue, ByteLength, PairCount;
    var pairs := ConfigPairs(o, cfg);
    var lines := LinesOf(pairs);
    ConfigSafe(o, cfg);
    LinesSafe(pairs);
    LinesUnlines(lines);
    SafePairsOf(pairs);
    AllCounted(lines);
    Whole(lines);
    ConfigReads(o, cfg);
    AtFinished(DescribedDevice(cfg, []), DescribedAll(cfg.peers), publicKey);
    DescribedPeers(cfg);
  }

  function Finish(d: Device, publicKey: Key -> Key): Result<Device, Failure> {
    Ok(d.(publicKey := publicKey(d.privateKey), hasPublicKey := d.hasPrivateKey))
  }

  lemma {:induction false} AtFinished(d: Device, ps: seq<Peer>, publicKey: Key -> Key)
    ensures Finished(At(d, ps), publicKey).Ok?
              && Ok(Finished(At(d, ps), publicKey).value) == Finish(WithPeers(d, ps), publicKey)
  {
  }

  lemma {:induction false} DescribedPeers(cfg: Config)
    ensures WithPeers(DescribedDevice(cfg, []), DescribedAll(cfg.peers))
              == DescribedDevice(cfg, DescribedAll(cfg.peers))
  {
  }

  lemma {:induction false} SafePairsOf(pairs: seq<(string, string)>)
    requires AllSafe(pairs)
    ensures PairsOf(LinesOf(pairs)) == pairs
  {
    PairsOfLines(pairs);
  }

  lemma {:induction false} ConfigSafe(o: Outside, cfg: Config)
    requires LawfulIP6(o) && LawfulPorts(o) && Sendable(cfg)
    ensures AllSafe(ConfigPairs(o, cfg))
  {
    hide AllSafe, HeaderPairs, PeersPairs, PeerSendable, LawfulIP6, LawfulPorts;
    HeaderSafe(cfg);
    PeersSafe(o, cfg.peers);
    SafeConcat(HeaderPairs(cfg), PeersPairs(o, cfg.peers));
  }

  /** Writer and parser together. */
  method WriteThenParse(o: Outside, cfg: Config, publicKey: Key -> Key) returns (r: Result<Device, Failure>)
    requires LawfulIP6(o) && LawfulPorts(o) && Sendable(cfg)
    ensures r.Ok? <==> NothingRemoved(cfg.peers) && Fits(LinesOf(ConfigPairs(o, cfg)))
    ensures r.Ok? ==> r == Finish(DescribedDevice(cfg, DescribedAll(cfg.peers)), publicKey)
  {
    hide ConfigPairs, NothingRemoved, LawfulIP6, LawfulPorts, DescribedDevice, Sendable, Fits, LinesOf, Outcome;
    var w := new Writer();
    WriteConfig(w, o, cfg);
    ConfigRoundTrip(o, cfg, publicKey);
    r := ParseDevice(o, w.text, publicKey);
  }

  /** One peer from which 10.0.0.0/8 is taken. */
  function RemovingTen(k: Key): Config {
    var op := AllowedIPConfig(Cidr4([10, 0, 0, 0], 8), AllowedIPRemove);
    Config(None, None, None, false, [EMPTY_PEER_CONFIG.(publicKey := k, operations := [op])])
  }

  /** Writing the removal of 10.0.0.0/8 gives a text that the parser rejects. */
  lemma {:induction false} RemovalUnreadable(o: Outside, k: Key, publicKey: Key -> Key)
    requires LawfulIP6(o) && LawfulPorts(o)
    ensures Outcome(o, Unlines(LinesOf(ConfigPairs(o, RemovingTen(k)))), publicKey).Err?
  {
    hide LawfulIP6, LawfulPorts, Outcome, LinesOf, ConfigPairs, Fits;
    var cfg := RemovingTen(k);
    assert !NothingRemoved(cfg.peers) by {
      assert cfg.peers[0].operations[0].operation == AllowedIPRemove;
      assert !NoRemovals(cfg.peers[0].operations);
    }
    ConfigRoundTrip(o, cfg, publicKey);
  }

  // ----- what the text changes -----

  /** The networks of an entry, followed by those of its operations, as they were configured. */
  function ConfiguredNets(p: PeerConfig): (r: seq<Cidr>)
    ensures |r| == |p.allowedIPs| + |p.operations|
  {
    p.allowedIPs + NetsOf(p.operations)
  }

  function NetsOf(ops: seq<AllowedIPConfig>): (r: seq<Cidr>)
    ensures |r| == |ops|
  {
    if ops == [] then [] else NetsOf(ops[..|ops| - 1]) + [ops[|ops| - 1].net]
  }

  /** A network without host bits that is not an IPv4-mapped one. */
  predicate Audible(c: Cidr) {
    IsMasked(c) && !MappedNet(c)
  }

  predicate AllAudible(nets: seq<Cidr>) {
    forall j :: 0 <= j < |nets| ==> Audible(nets[j])
  }

  lemma {:induction false} HeardExactly(c: Cidr)
    ensures Heard(c) == c <==> Audible(c)
  {
  }

  lemma {:induction false} HeardNetsExactly(nets: seq<Cidr>)
    ensures |HeardNets(nets)| == |nets|
    ensures HeardNets(nets) == nets <==> AllAudible(nets)
  {
    hide Heard, Audible;
    if nets == [] {
    } else {
      var init, c := nets[..|nets| - 1], nets[|nets| - 1];
      HeardNetsExactly(init);
      HeardExactly(c);
      assert nets == init + [c];
      assert HeardNets(nets)[..|init|] == HeardNets(init) && HeardNets(nets)[|init|] == Heard(c);
    }
  }

  lemma {:induction false} OperationsHeard(ops: seq<AllowedIPConfig>)
    ensures HeardOperations(ops) == HeardNets(NetsOf(ops))
  {
    hide Heard;
    if ops == [] {
    } else {
      OperationsHeard(ops[..|ops| - 1]);
      assert NetsOf(ops)[..|ops| - 1] == NetsOf(ops[..|ops| - 1]);
    }
  }

  lemma {:induction false} HeardConcat(a: seq<Cidr>, b: seq<Cidr>)
    ensures HeardNets(a + b) == HeardNets(a) + HeardNets(b)
    decreases |b|
  {
    hide Heard;
    if b == [] {
      Assoc(a, [], []);
      Assoc(HeardNets(a), [], []);
    } else {
      assert (a + b)[..|a + b| - 1] == a + b[..|b| - 1];
      HeardConcat(a, b[..|b| - 1]);
      Assoc(HeardNets(a), HeardNets(b[..|b| - 1]), [Heard(b[|b| - 1])]);
    }
  }

  /** A peer is described with the networks it was configured with, exactly when all of them are audible. */
  lemma {:induction false} NetworksKeptExactly(p: PeerConfig)
    ensures Described(p).allowedIPs == ConfiguredNets(p) <==> AllAudible(ConfiguredNets(p))
  {
    hide HeardNets, HeardOperations, NetsOf, AllAudible;
    OperationsHeard(p.operations);
    HeardConcat(p.allowedIPs, NetsOf(p.operations));
    HeardNetsExactly(ConfiguredNets(p));
  }

  lemma {:induction false} DescribedAt(ps: seq<PeerConfig>, i: nat)
    requires i < |ps|
    ensures DescribedAll(ps)[i] == Described(ps[i])
  {
    hide Described;
    if i == |ps| - 1 {
    } else {
      DescribedAt(ps[..|ps| - 1], i);
    }
  }

  ghost predicate NetworksKept(ps: seq<PeerConfig>) {
    forall i :: 0 <= i < |ps| ==> DescribedAll(ps)[i].allowedIPs == ConfiguredNets(ps[i])
  }

  /** So are all peers of a configuration. */
  lemma {:induction false} AllNetworksKeptExactly(ps: seq<PeerConfig>)
    ensures NetworksKept(ps) <==> forall i :: 0 <= i < |ps| ==> AllAudible(ConfiguredNets(ps[i]))
  {
    hide Described, ConfiguredNets, AllAudible;
    forall i | 0 <= i < |ps|
      ensures DescribedAll(ps)[i].allowedIPs == ConfiguredNets(ps[i]) <==> AllAudible(ConfiguredNets(ps[i]))
    {
      DescribedAt(ps, i);
      NetworksKeptExactly(ps[i]);
    }
  }

  /** 10.0.0.1/8 is described as 10.0.0.0/8. */
  lemma {:induction false} HostBitsLost()
    ensures Heard(Cidr4([10, 0, 0, 1], 8)) == Cidr4([10, 0, 0, 0], 8)
  {
    var bs: Bytes4 := [10, 0, 0, 1];
    assert MaskByte(10, 8) == 10 && MaskByte(0, 0) == 0 && MaskByte(0, -8) == 0 && MaskByte(1, -16) == 0;
    assert MaskBytes(bs, 8) == [10, 0, 0, 0];
  }
}
