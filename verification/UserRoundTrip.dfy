/** A configuration written in the userspace protocol and read back by the parser of dumps. */
module UserRoundTrip {
  import opened Wrappers
  import opened WgTypes
  import opened Seqs
  import opened Text
  import opened Numbers
  import opened Addresses
  import opened Endpoints
  import opened UserParse
  import opened UserText

  // ----- what is read back -----

  function ReadEndpointOf(p: PeerConfig): Option<UDPAddr> {
    match p.endpoint
    case Some(e) => Some(UDPAddr(Unmap(e.ip), e.port, e.zone))
    case None => None
  }

  function HeardNets(nets: seq<Cidr>): seq<Cidr>
  {
    if nets == [] then [] else HeardNets(nets[..|nets| - 1]) + [Heard(nets[|nets| - 1])]
  }

  function HeardOperations(ops: seq<AllowedIPConfig>): seq<Cidr>
  {
    if ops == [] then [] else HeardOperations(ops[..|ops| - 1]) + [Heard(ops[|ops| - 1].net)]
  }

  /** The peer that the lines of an entry without removals describe. */
  function Described(p: PeerConfig): Peer {
    Peer(None, p.publicKey, p.presharedKey.GetOr(ZeroKey()), p.presharedKey.Some?, ReadEndpointOf(p),
         WholeSeconds(p.keepalive.GetOr(0)) * SECOND, p.keepalive.Some?, None, 0, 0,
         HeardNets(p.allowedIPs) + HeardOperations(p.operations), 0)
  }

  function DescribedAll(ps: seq<PeerConfig>): (r: seq<Peer>)
    ensures |r| == |ps|
  {
    if ps == [] then [] else DescribedAll(ps[..|ps| - 1]) + [Described(ps[|ps| - 1])]
  }

  function DescribedDevice(cfg: Config, peers: seq<Peer>): Device {
    Device("", cfg.privateKey.GetOr(ZeroKey()), cfg.privateKey.Some?, ZeroKey(), false,
           cfg.listenPort.GetOr(0), cfg.listenPort.Some?, cfg.firewallMark.GetOr(0), cfg.firewallMark.Some?, peers)
  }

  predicate NoRemovals(ops: seq<AllowedIPConfig>) {
    forall i :: 0 <= i < |ops| ==> ops[i].operation != AllowedIPRemove
  }

  predicate NothingRemoved(ps: seq<PeerConfig>) {
    forall i :: 0 <= i < |ps| ==> NoRemovals(ps[i].operations)
  }

  predicate InInt64(n: int) {
    -0x8000_0000_0000_0000 <= n < 0x8000_0000_0000_0000
  }

  predicate EndpointSendable(e: UDPAddr) {
    && 0 <= e.port <= 65535 && ZoneSafe(e.zone) && Absent(e.zone, '=')
    && (e.zone != "" ==> Unmap(e.ip).IP6?)
  }

  /** Values of the widths the source has, and endpoints whose text is read as an address. */
  predicate PeerSendable(p: PeerConfig) {
    && InInt64(p.keepalive.GetOr(0))
    && (p.endpoint.Some? ==> EndpointSendable(p.endpoint.value))
  }

  predicate Sendable(cfg: Config) {
    && InInt64(cfg.listenPort.GetOr(0)) && InInt64(cfg.firewallMark.GetOr(0))
    && forall i :: 0 <= i < |cfg.peers| ==> PeerSendable(cfg.peers[i])
  }

  // ----- values -----

  lemma {:induction false} HexDigits(x: byte)
    ensures DigitValue(DigitChar(x / 16)) * 16 + DigitValue(DigitChar(x % 16)) == x
    ensures Plain(DigitChar(x / 16)) && Plain(DigitChar(x % 16))
  {
    DigitRoundTrip(x / 16);
    DigitRoundTrip(x % 16);
  }

  /** Two more digits are one more byte. */
  lemma {:induction false} HexStep(s: string, b: seq<byte>, x: byte)
    requires DecodeHex(s) == Some(b)
    ensures DecodeHex(s + [DigitChar(x / 16), DigitChar(x % 16)]) == Some(b + [x])
  {
    hide DigitChar, DigitValue, Plain;
    HexDigits(x);
    PlainIsDigit(DigitChar(x / 16));
    PlainIsDigit(DigitChar(x % 16));
    var t := s + [DigitChar(x / 16), DigitChar(x % 16)];
    assert t[..|t| - 2] == s;
  }

  lemma {:induction false} HexReads(b: seq<byte>)
    ensures DecodeHex(HexText(b)) == Some(b) && AllPlain(HexText(b))
  {
    hide DigitChar, DecodeHex, Plain;
    if b == [] {
      assert DecodeHex("") == Some([]) by {
        NoHex();
      }
    } else {
      var init, x := b[..|b| - 1], b[|b| - 1];
      HexReads(init);
      HexStep(HexText(init), init, x);
      HexDigits(x);
      assert b == init + [x];
    }
  }

  lemma {:induction false} NoHex()
    ensures DecodeHex("") == Some([])
  {
  }

  lemma {:induction false} PlainIsDigit(c: char)
    requires Plain(c)
    ensures DigitValue(c) < 16
  {
  }

  lemma {:induction false} KeyReadsBack(k: Key)
    ensures KeyRead(None, HexText(k)) == (k, None)
  {
    HexReads(k);
  }

  lemma {:induction false} IntReadsBack(n: int)
    requires InInt64(n)
    ensures IntRead(None, Itoa(n)) == (n, None) && Token(Itoa(n)) && Absent(Itoa(n), '=')
  {
    hide Format, ParseUint;
    var magnitude := if n < 0 then -n else n;
    ParseFormat(magnitude, 10, 0x1_0000_0000_0000_0000);
    DigitsOnly(magnitude);
    var s := Itoa(n);
    if n < 0 {
      assert s[0] == '-' && s[1..] == Format(magnitude, 10);
    }
  }

  lemma {:induction false} DigitsOnly(n: nat)
    ensures var s := Format(n, 10); s != "" && s[0] != '-' && s[0] != '+' && Absent(s, '=')
  {
    FormatPlain(n, 10);
  }

  lemma {:induction false} ReadsZoned(o: Outside, e: UDPAddr)
    requires LawfulIP6(o) && EndpointSendable(e)
    ensures ReadZoned(o, FormatHost(o, e)) == Some((Unmap(e.ip), e.zone))
  {
    hide ReadAddr;
    var ip, host := WriteIP(o, e.ip), FormatHost(o, e);
    AddrRoundTrip(o, e.ip);
    if e.zone == "" {
      assert host == ip;
      FirstNone(ip, '%');
    } else {
      assert host == ip + ['%'] + e.zone;
      FirstAfter(ip, '%', e.zone);
      ZonedIsIP6(o, e);
    }
  }

  lemma {:induction false} ZonedIsIP6(o: Outside, e: UDPAddr)
    requires LawfulIP6(o) && EndpointSendable(e) && e.zone != ""
    ensures First(FormatHost(o, e), '.') >= First(FormatHost(o, e), ':')
  {
    var ip, host := WriteIP(o, e.ip), FormatHost(o, e);
    assert IP6Text(ip);
    assert host[..|ip|] == ip;
    var i :| 0 <= i < |ip| && ip[i] == ':';
    assert host[i] == ':';
  }

  lemma {:induction false} StrictSplit(host: string, port: string)
    requires host != [] && Absent(host, '[') && Absent(host, ']')
    requires Absent(port, ':') && Absent(port, '[') && Absent(port, ']')
    ensures SplitHostPort(JoinHostPort(host, port)) == Some((host, port))
  {
    var s := JoinHostPort(host, port);
    if Absent(host, ':') {
      assert s == host + [':'] + port && s[0] == host[0];
      LastBefore(host, ':', port);
    } else {
      SplitJoined(host, port);
    }
  }

  lemma {:induction false} AddrReadsBack(o: Outside, e: UDPAddr)
    requires LawfulIP6(o) && LawfulPorts(o) && EndpointSendable(e)
    ensures AddrRead(o, None, FormatEndpoint(o, e)) == (Some(UDPAddr(Unmap(e.ip), e.port, e.zone)), None)
  {
    hide FormatHost, ReadZoned, SplitHostPort, JoinHostPort, Format, Unmap;
    var host, port := FormatHost(o, e), Format(e.port, 10);
    HostText(o, e);
    PortText(e.port);
    StrictSplit(host, port);
    ReadsZoned(o, e);
    assert o.lookupPort(port) == Some(e.port);
  }

  lemma {:induction false} NetReadsBack(o: Outside, c: Cidr)
    requires LawfulIP6(o)
    ensures NetRead(o, None, WriteCidr(o, c)) == (Some(Heard(c)), None)
  {
    hide WriteCidr, ReadCidr, Spoken, Masked;
    CidrRoundTrip(o, c);
  }

  lemma {:induction false} OctetOfSigned(s: string)
    requires s != "" && s[0] == '-'
    ensures ReadIP4(s).None?
  {
    var parts := Split(s, '.');
    assert First(s, '.') > 0;
    assert parts[0] == s[..First(s, '.')];
    assert parts[0][0] == '-';
    assert DigitValue('-') == 16;
    assert !Digits(parts[0], 10);
  }

  /** A minus sign is not part of any network. */
  lemma {:induction false} SignedNetFails(o: Outside, s: string)
    requires LawfulIP6(o) && s != "" && s[0] == '-'
    ensures NetRead(o, None, s) == (None, Some(BadNetwork))
  {
    hide Masked, ReadIP4;
    var i := First(s, '/');
    if i < |s| {
      var addr := s[..i];
      assert i > 0 && addr[0] == '-';
      OctetOfSigned(addr);
      assert DigitValue('-') == 16;
      assert !IP6Readable(addr);
    }
  }

  // ----- one line at a time -----

  /** The parser after a device part `d` and the peers `ps`, without an error. */
  function At(d: Device, ps: seq<Peer>): Reading {
    Reading(WithPeers(d, ps), None, ps != [], |ps|, 0, 0)
  }

  lemma {:induction false} ReadAllConcat(o: Outside, r: Reading, a: seq<(string, string)>, b: seq<(string, string)>)
    requires Consistent(r)
    ensures ReadAll(o, r, a + b) == ReadAll(o, ReadAll(o, r, a), b)
    decreases |b|
  {
    hide Step, Consistent;
    if b == [] {
      Assoc(a, [], []);
    } else {
      var b' := b[..|b| - 1];
      assert (a + b)[..|a + b| - 1] == a + b';
      ReadAllConcat(o, r, a, b');
    }
  }

  lemma {:induction false} ReadOne(o: Outside, r: Reading, key: string, value: string)
    requires Consistent(r)
    ensures ReadAll(o, r, [(key, value)]) == Step(o, r, key, value)
  {
    hide Step;
    var one := [(key, value)];
    assert one[..0] == [];
    assert ReadAll(o, r, one[..0]) == r;
  }

  lemma {:induction false} ReadWhen(o: Outside, r: Reading, condition: bool, key: string, value: string)
    requires Consistent(r)
    ensures ReadAll(o, r, When(condition, (key, value))) == if condition then Step(o, r, key, value) else r
  {
    hide Step;
    if condition {
      ReadOne(o, r, key, value);
    }
  }

  lemma {:induction false} Replaced(d: Device, ps: seq<Peer>, p: Peer, q: Peer)
    ensures Consistent(At(d, ps + [p])) && At(d, ps + [p]).d.peers[|ps|] == p
    ensures WithLast(At(d, ps + [p]), q, None) == At(d, ps + [q])
  {
    assert (ps + [p])[|ps| := q] == ps + [q];
  }

  lemma {:induction false} Silent(o: Outside, d: Device, ps: seq<Peer>, key: string, value: string)
    requires WordOf(key) == OtherWord
    ensures Consistent(At(d, ps)) && Step(o, At(d, ps), key, value) == At(d, ps)
  {
    hide WordOf, IntRead, KeyRead;
  }

  lemma {:induction false} SilentWords()
    ensures WordOf("replace_peers") == OtherWord && WordOf("remove") == OtherWord
  {
  }

  lemma {:induction false} SilentPeerWords()
    ensures WordOf("update_only") == OtherWord && WordOf("replace_allowed_ips") == OtherWord
  {
  }

  lemma {:induction false} KeyWords()
    ensures WordOf("private_key") == PrivateKeyWord && WordOf("public_key") == PublicKeyWord
    ensures WordOf("preshared_key") == PresharedKeyWord
  {
  }

  lemma {:induction false} NumberWords()
    ensures WordOf("listen_port") == ListenPortWord && WordOf("fwmark") == MarkWord
    ensures WordOf("persistent_keepalive_interval") == KeepaliveWord
  {
  }

  lemma {:induction false} AddressWords()
    ensures WordOf("endpoint") == EndpointWord && WordOf("allowed_ip") == AllowedIPWord
  {
  }

  // ----- the device part -----

  lemma {:induction false} HeaderReads(o: Outside, cfg: Config)
    requires InInt64(cfg.listenPort.GetOr(0)) && InInt64(cfg.firewallMark.GetOr(0))
    ensures ReadAll(o, NOTHING, HeaderPairs(cfg)) == At(DescribedDevice(cfg, []), [])
  {
    hide WordOf, HexText, Itoa, KeyRead, IntRead, ReadAll, When;
    var key := When(cfg.privateKey.Some?, ("private_key", HexText(cfg.privateKey.GetOr(ZeroKey()))));
    var port := When(cfg.listenPort.Some?, ("listen_port", Itoa(cfg.listenPort.GetOr(0))));
    var mark := When(cfg.firewallMark.Some?, ("fwmark", Itoa(cfg.firewallMark.GetOr(0))));
    var replace := When(cfg.replacePeers, ("replace_peers", "true"));
    KeyWords();
    NumberWords();
    SilentWords();
    KeyReadsBack(cfg.privateKey.GetOr(ZeroKey()));
    IntReadsBack(cfg.listenPort.GetOr(0));
    IntReadsBack(cfg.firewallMark.GetOr(0));
    var r0 := NOTHING;
    ReadWhen(o, r0, cfg.privateKey.Some?, "private_key", HexText(cfg.privateKey.GetOr(ZeroKey())));
    var r1 := ReadAll(o, r0, key);
    ReadWhen(o, r1, cfg.listenPort.Some?, "listen_port", Itoa(cfg.listenPort.GetOr(0)));
    var r2 := ReadAll(o, r1, port);
    ReadWhen(o, r2, cfg.firewallMark.Some?, "fwmark", Itoa(cfg.firewallMark.GetOr(0)));
    var r3 := ReadAll(o, r2, mark);
    assert r3 == At(DescribedDevice(cfg, []), []);
    ReadWhen(o, r3, cfg.replacePeers, "replace_peers", "true");
    Silent(o, DescribedDevice(cfg, []), [], "replace_peers", "true");
    ReadAllConcat(o, r0, key, port);
    ReadAllConcat(o, r0, key + port, mark);
    ReadAllConcat(o, r0, key + port + mark, replace);
  }

  // ----- one peer -----

  function Started(p: PeerConfig): Peer {
    EMPTY_PEER.(publicKey := p.publicKey)
  }

  lemma {:induction false} FlagsRead(o: Outside, d: Device, ps: seq<Peer>, p: PeerConfig)
    ensures Consistent(At(d, ps)) && ReadAll(o, At(d, ps), FlagPairs(p)) == At(d, ps + [Started(p)])
  {
    hide WordOf, HexText, KeyRead, ReadAll, When;
    var r := At(d, ps);
    var head := [("public_key", HexText(p.publicKey))];
    var remove, update := When(p.remove, ("remove", "true")), When(p.updateOnly, ("update_only", "true"));
    KeyWords();
    SilentWords();
    SilentPeerWords();
    KeyReadsBack(p.publicKey);
    ReadOne(o, r, "public_key", HexText(p.publicKey));
    var r1 := At(d, ps + [Started(p)]);
    assert ReadAll(o, r, head) == r1;
    Silent(o, d, ps + [Started(p)], "remove", "true");
    ReadWhen(o, r1, p.remove, "remove", "true");
    Silent(o, d, ps + [Started(p)], "update_only", "true");
    ReadWhen(o, r1, p.updateOnly, "update_only", "true");
    ReadAllConcat(o, r, head, remove);
    ReadAllConcat(o, r, head + remove, update);
  }

  lemma {:induction false} StepPreshared(o: Outside, d: Device, ps: seq<Peer>, q: Peer, k: Key)
    ensures Consistent(At(d, ps + [q]))
    ensures Step(o, At(d, ps + [q]), "preshared_key", HexText(k)) ==
            At(d, ps + [q.(presharedKey := k, hasPresharedKey := true)])
  {
    hide WordOf, HexText, KeyRead, IntRead, At, WithLast;
    KeyWords();
    KeyReadsBack(k);
    AtParts(d, ps, q);
    Replaced(d, ps, q, q.(presharedKey := k, hasPresharedKey := true));
  }

  lemma {:induction false} AtParts(d: Device, ps: seq<Peer>, q: Peer)
    ensures var r := At(d, ps + [q]);
            && r.err.None? && r.parsePeers && r.peers == |ps| + 1 && |r.d.peers| == |ps| + 1
              && r.d.peers[r.peers - 1] == q
            && r.(err := None) == r
  {
  }

  lemma {:induction false} StepEndpoint(o: Outside, d: Device, ps: seq<Peer>, q: Peer, e: UDPAddr)
    requires LawfulIP6(o) && LawfulPorts(o) && EndpointSendable(e)
    ensures Consistent(At(d, ps + [q]))
    ensures Step(o, At(d, ps + [q]), "endpoint", FormatEndpoint(o, e)) ==
            At(d, ps + [q.(endpoint := Some(UDPAddr(Unmap(e.ip), e.port, e.zone)))])
  {
    hide WordOf, FormatEndpoint, AddrRead, IntRead, At, WithLast, Unmap;
    AddressWords();
    AddrReadsBack(o, e);
    AtParts(d, ps, q);
    Replaced(d, ps, q, q.(endpoint := Some(UDPAddr(Unmap(e.ip), e.port, e.zone))));
  }

  lemma {:induction false} SecondsFit(n: int)
    requires InInt64(n)
    ensures InInt64(WholeSeconds(n)) && Int64(WholeSeconds(n) * SECOND) == WholeSeconds(n) * SECOND
  {
  }

  lemma {:induction false} StepKeepalive(o: Outside, d: Device, ps: seq<Peer>, q: Peer, n: int)
    requires InInt64(n)
    ensures Consistent(At(d, ps + [q]))
    ensures Step(o, At(d, ps + [q]), "persistent_keepalive_interval", Itoa(WholeSeconds(n))) ==
            At(d, ps + [q.(keepalive := WholeSeconds(n) * SECOND, hasKeepalive := true)])
  {
    hide WordOf, Itoa, IntRead, At, WithLast, WholeSeconds, Int64, InInt64;
    NumberWords();
    SecondsFit(n);
    IntReadsBack(WholeSeconds(n));
    AtParts(d, ps, q);
    Replaced(d, ps, q, q.(keepalive := WholeSeconds(n) * SECOND, hasKeepalive := true));
  }

  lemma {:induction false} StepNet(o: Outside, d: Device, ps: seq<Peer>, q: Peer, c: Cidr)
    requires LawfulIP6(o)
    ensures Consistent(At(d, ps + [q]))
    ensures Step(o, At(d, ps + [q]), "allowed_ip", WriteCidr(o, c))
              == At(d, ps + [WithNets(q, q.allowedIPs + [Heard(c)])])
  {
    hide WordOf, WriteCidr, NetRead, IntRead, At, WithLast, Heard;
    AddressWords();
    NetReadsBack(o, c);
    AtParts(d, ps, q);
    Replaced(d, ps, q, WithNets(q, q.allowedIPs + [Heard(c)]));
  }

  lemma {:induction false} StepSignedNet(o: Outside, d: Device, ps: seq<Peer>, q: Peer, s: string)
    requires LawfulIP6(o) && s != "" && s[0] == '-'
    ensures Consistent(At(d, ps + [q])) && Step(o, At(d, ps + [q]), "allowed_ip", s).err.Some?
  {
    hide WordOf, NetRead, IntRead, At, LawfulIP6;
    AddressWords();
    SignedNetFails(o, s);
    AtParts(d, ps, q);
    Replaced(d, ps, q, q);
  }

  // ----- what only a dump has -----

  lemma {:induction false} StatisticsWords()
    ensures WordOf("tx_bytes") == TxWord && WordOf("rx_bytes") == RxWord && WordOf("protocol_version") == ProtocolWord
  {
    TrafficWords();
    VersionWord();
  }

  lemma {:induction false} TrafficWords()
    ensures WordOf("tx_bytes") == TxWord && WordOf("rx_bytes") == RxWord
  {
  }

  lemma {:induction false} VersionWord()
    ensures WordOf("protocol_version") == ProtocolWord
  {
  }

  lemma {:induction false} HandshakeWords()
    ensures WordOf("last_handshake_time_sec") == HandshakeSecWord
              && WordOf("last_handshake_time_nsec") == HandshakeNsecWord
  {
  }

  lemma {:induction false} StepStatistics(o: Outside, d: Device, ps: seq<Peer>, q: Peer, n: int)
    requires InInt64(n)
    ensures Consistent(At(d, ps + [q]))
    ensures Step(o, At(d, ps + [q]), "tx_bytes", Itoa(n)) == At(d, ps + [q.(transmitBytes := n)])
    ensures Step(o, At(d, ps + [q]), "rx_bytes", Itoa(n)) == At(d, ps + [q.(receiveBytes := n)])
    ensures Step(o, At(d, ps + [q]), "protocol_version", Itoa(n)) == At(d, ps + [q.(protocolVersion := n)])
  {
    hide WordOf, Itoa, IntRead, At, WithLast, InInt64;
    StatisticsWords();
    IntReadsBack(n);
    AtParts(d, ps, q);
    Replaced(d, ps, q, q.(transmitBytes := n));
    Replaced(d, ps, q, q.(receiveBytes := n));
    Replaced(d, ps, q, q.(protocolVersion := n));
  }

  /** A handshake is known once both its lines are read and both numbers are positive. */
  lemma {:induction false} HandshakeRead(o: Outside, d: Device, ps: seq<Peer>, q: Peer, sec: int, nsec: int)
    requires InInt64(sec) && InInt64(nsec)
    ensures Consistent(At(d, ps + [q]))
    ensures var pairs := [("last_handshake_time_sec", Itoa(sec)), ("last_handshake_time_nsec", Itoa(nsec))];
            var r := ReadAll(o, At(d, ps + [q]), pairs);
            && r.err.None? && r.peers == |ps| + 1
            && r.d == WithPeers(d, ps
              + [if sec > 0 && nsec > 0 then q.(lastHandshake := Some(UnixTime(sec, nsec))) else q])
  {
    hide WordOf, Itoa, IntRead, InInt64, UnixTime;
    var r := At(d, ps + [q]);
    HandshakeWords();
    IntReadsBack(sec);
    IntReadsBack(nsec);
    ReadOne(o, r, "last_handshake_time_sec", Itoa(sec));
    var r1 := ReadAll(o, r, [("last_handshake_time_sec", Itoa(sec))]);
    ReadOne(o, r1, "last_handshake_time_nsec", Itoa(nsec));
    ReadAllConcat(o, r, [("last_handshake_time_sec", Itoa(sec))], [("last_handshake_time_nsec", Itoa(nsec))]);
    assert [("last_handshake_time_sec", Itoa(sec))] + [("last_handshake_time_nsec", Itoa(nsec))]
        == [("last_handshake_time_sec", Itoa(sec)), ("last_handshake_time_nsec", Itoa(nsec))];
    var last := if sec > 0 && nsec > 0 then q.(lastHandshake := Some(UnixTime(sec, nsec))) else q;
    assert (ps + [q])[|ps| := last] == ps + [last];
  }

  // ----- the last line -----

  lemma {:induction false} ErrnoIs()
    ensures WordOf("errno") == ErrnoWord
  {
  }

  lemma {:induction false} ErrnoStep(o: Outside, r: Reading, n: int)
    requires Consistent(r) && r.err.None? && InInt64(n)
    ensures Step(o, r, "errno", Itoa(n)) == if n == 0 then r else r.(err := Some(Errno(n)))
  {
    hide WordOf, Itoa, Atoi, InInt64;
    ErrnoIs();
    IntReadsBack(n);
  }

  /** The error number of the daemon decides about a dump that could be read: zero, or the error returned. */
  lemma {:induction false} ErrnoDecides(o: Outside, pairs: seq<(string, string)>, n: int, publicKey: Key -> Key)
    requires InInt64(n) && FirstError(o, pairs).None?
    ensures Finished(ReadAll(o, NOTHING, pairs + [("errno", Itoa(n))]), publicKey) ==
            if n == 0 then Finished(ReadAll(o, NOTHING, pairs), publicKey) else Err(Errno(n))
  {
    hide Step, Itoa, InInt64, FirstError, ReadAll, Consistent;
    ErrorIsFirst(o, pairs);
    NothingConsistent();
    var r := ReadAll(o, NOTHING, pairs);
    ReadAllConcat(o, NOTHING, pairs, [("errno", Itoa(n))]);
    ReadOne(o, r, "errno", Itoa(n));
    ErrnoStep(o, r, n);
  }

  lemma {:induction false} NothingConsistent()
    ensures Consistent(NOTHING)
  {
  }
}
