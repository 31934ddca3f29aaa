/**
 * The parser of the userspace configuration protocol: deviceParser of
 * internal/wguser/parse.go. It keeps the first error and goes on reading.
 */
module UserParse {
  import opened Wrappers
  import opened WgTypes
  import opened Seqs
  import opened Text
  import opened Numbers
  import opened Addresses

  datatype ReadError = BadHex | BadKeyLength | BadNumber | BadAddress | BadNetwork | Errno(errno: int)

  // ----- values -----

  /** hex.DecodeString */
  function DecodeHex(s: string): Option<seq<byte>>
  {
    if s == [] then Some([])
    else if |s| == 1 then None
    else
      var init, hi, lo := DecodeHex(s[..|s| - 2]), DigitValue(s[|s| - 2]), DigitValue(s[|s| - 1]);
      if init.None? || hi == 16 || lo == 16 then None else Some(init.value + [hi * 16 + lo])
  }

  /** netip.ParseAddr with its zone; only IPv6 text has one. The address is given as To4 sees it. */
  function ReadZoned(o: Outside, host: string): Option<(IP, string)> {
    var percent := First(host, '%');
    if percent == |host| || First(host, '.') < First(host, ':') then
      match ReadIP(o, host)
      case Some(ip) => Some((ip, ""))
      case None => None
    else
      match ReadAddr(o, host[..percent])
      case Some(IP6(b)) => if percent + 1 == |host| then None else Some((Unmap(IP6(b)), host[percent + 1..]))
      case _ => None
  }

  /** An IPv4 address if the name has one, otherwise its first address. */
  function Preferred(ips: seq<IP>): Option<IP>
  {
    if ips == [] then None
    else
      var earlier := Preferred(ips[..|ips| - 1]);
      var last := ips[|ips| - 1];
      if earlier.None? || (earlier.value.IP6? && last.IP4?) then Some(last) else earlier
  }

  /** The first IPv4 address, or the first address if none is IPv4. */
  lemma {:induction false} PreferredIs(ips: seq<IP>, i: nat)
    requires i < |ips| && forall j :: 0 <= j < i ==> ips[j].IP6?
    requires ips[i].IP4? || (i == 0 && forall j :: 0 <= j < |ips| ==> ips[j].IP6?)
    ensures Preferred(ips) == Some(ips[i])
  {
    if |ips| == 1 {
    } else if i == |ips| - 1 {
      PreferredIs(ips[..|ips| - 1], 0);
    } else {
      PreferredIs(ips[..|ips| - 1], i);
    }
  }

  /** net.ResolveUDPAddr, for a host that is not empty. */
  function ReadUDPAddr(o: Outside, s: string): Option<UDPAddr> {
    var parts := SplitHostPort(s);
    if parts.None? then None
    else
      var (host, portText) := parts.value;
      var port := o.lookupPort(portText);
      if port.None? || host == "" then None
      else
        match ReadZoned(o, host)
        case Some((ip, zone)) => Some(UDPAddr(ip, port.value, zone))
        case None =>
          match o.settled(host)
          case NotFound => None
          case Found(ips) =>
            var ip := if o.failures(host) > 0 then None else Preferred(ips);
            if ip.None? then None else Some(UDPAddr(ip.value, port.value, ""))
  }

  /** A name is looked up once, and its IPv4 address is preferred. */
  lemma {:induction false} NameIsAddressed(o: Outside, host: string, port: nat)
    requires LawfulPorts(o) && port <= 65535 && ReadZoned(o, host).None?
    requires host != "" && Absent(host, ':') && Absent(host, '[') && Absent(host, ']')
    ensures ReadUDPAddr(o, host + ":" + Format(port, 10)) ==
            if o.failures(host) == 0 && o.settled(host).Found? && o.settled(host).ips != []
            then Some(UDPAddr(Preferred(o.settled(host).ips).value, port, "")) else None
  {
    hide Format, ReadZoned, AfterLast, Preferred;
    var text := Format(port, 10);
    FormatPlain(port, 10);
    LastBefore(host, ':', text);
    assert host + [':'] + text == host + ":" + text;
    SomePreferred(if o.settled(host).Found? then o.settled(host).ips else []);
  }

  lemma {:induction false} SomePreferred(ips: seq<IP>)
    ensures Preferred(ips).Some? <==> ips != []
  {
  }

  function ReadNetwork(o: Outside, s: string): Option<Cidr> {
    match ReadCidr(o, s)
    case Some(c) => Some(Masked(c))
    case None => None
  }

  // ----- reading under the error latch -----

  function KeyRead(err: Option<ReadError>, s: string): (Key, Option<ReadError>) {
    if err.Some? then (ZeroKey(), err)
    else
      match DecodeHex(s)
      case None => (ZeroKey(), Some(BadHex))
      case Some(b) => if |b| == KEY_LEN then (b, None) else (ZeroKey(), Some(BadKeyLength))
  }

  function IntRead(err: Option<ReadError>, s: string): (int, Option<ReadError>) {
    if err.Some? then (0, err)
    else
      match Atoi(s)
      case None => (0, Some(BadNumber))
      case Some(n) => (n, None)
  }

  function AddrRead(o: Outside, err: Option<ReadError>, s: string): (Option<UDPAddr>, Option<ReadError>) {
    if err.Some? then (None, err)
    else
      var addr := ReadUDPAddr(o, s);
      (addr, if addr.None? then Some(BadAddress) else None)
  }

  function NetRead(o: Outside, err: Option<ReadError>, s: string): (Option<Cidr>, Option<ReadError>) {
    if err.Some? then (None, err)
    else
      var net := ReadNetwork(o, s);
      (net, if net.None? then Some(BadNetwork) else None)
  }

  // ----- what a line does -----

  datatype Word =
    | ErrnoWord | PrivateKeyWord | ListenPortWord | MarkWord
    | PublicKeyWord | PresharedKeyWord | EndpointWord | KeepaliveWord | AllowedIPWord
    | HandshakeSecWord | HandshakeNsecWord | TxWord | RxWord | ProtocolWord
    | OtherWord

  function WordOf(key: string): Word {
    if key == "errno" then ErrnoWord
    else if key == "private_key" then PrivateKeyWord
    else if key == "listen_port" then ListenPortWord
    else if key == "fwmark" then MarkWord
    else if key == "public_key" then PublicKeyWord
    else if key == "preshared_key" then PresharedKeyWord
    else if key == "endpoint" then EndpointWord
    else if key == "persistent_keepalive_interval" then KeepaliveWord
    else if key == "allowed_ip" then AllowedIPWord
    else if key == "last_handshake_time_sec" then HandshakeSecWord
    else if key == "last_handshake_time_nsec" then HandshakeNsecWord
    else if key == "tx_bytes" then TxWord
    else if key == "rx_bytes" then RxWord
    else if key == "protocol_version" then ProtocolWord
    else OtherWord
  }

  /** The fields of the parser. */
  datatype Reading = Reading(
    d: Device, err: Option<ReadError>, parsePeers: bool, peers: nat, hsSec: int, hsNano: int)

  /** The parser starts with every field zero. */
  const NOTHING := Reading(EMPTY_DEVICE, None, false, 0, 0, 0)

  ghost predicate Consistent(r: Reading) {
    r.peers == |r.d.peers| && (r.parsePeers <==> r.peers > 0)
  }

  function DeviceWord(r: Reading, word: Word, value: string): Reading {
    match word
    case PrivateKeyWord =>
      var (k, err) := KeyRead(r.err, value);
      r.(d := r.d.(privateKey := k, hasPrivateKey := true), err := err)
    case ListenPortWord =>
      var (n, err) := IntRead(r.err, value);
      r.(d := r.d.(listenPort := n, hasListenPort := true), err := err)
    case MarkWord =>
      var (n, err) := IntRead(r.err, value);
      r.(d := r.d.(firewallMark := n, hasFirewallMark := true), err := err)
    case _ => r
  }

  /** The reading with another last peer and another error. */
  function WithLast(r: Reading, p: Peer, err: Option<ReadError>): Reading
    requires 0 < r.peers <= |r.d.peers|
  {
    r.(d := r.d.(peers := r.d.peers[r.peers - 1 := p]), err := err)
  }

  function PeerWord(o: Outside, r: Reading, word: Word, value: string): Reading
    requires 0 < r.peers <= |r.d.peers|
  {
    var p := r.d.peers[r.peers - 1];
    match word
    case PresharedKeyWord =>
      var (k, err) := KeyRead(r.err, value);
      WithLast(r, p.(presharedKey := k, hasPresharedKey := true), err)
    case EndpointWord =>
      var (e, err) := AddrRead(o, r.err, value);
      WithLast(r, p.(endpoint := e), err)
    case HandshakeSecWord =>
      var (n, err) := IntRead(r.err, value);
      r.(hsSec := n, err := err)
    case HandshakeNsecWord =>
      var (n, err) := IntRead(r.err, value);
      var seen := if r.hsSec > 0 && n > 0 then Some(UnixTime(r.hsSec, n)) else p.lastHandshake;
      WithLast(r, p.(lastHandshake := seen), err).(hsNano := n)
    case TxWord =>
      var (n, err) := IntRead(r.err, value);
      WithLast(r, p.(transmitBytes := n), err)
    case RxWord =>
      var (n, err) := IntRead(r.err, value);
      WithLast(r, p.(receiveBytes := n), err)
    case KeepaliveWord =>
      var (n, err) := IntRead(r.err, value);
      WithLast(r, p.(keepalive := Int64(n * SECOND), hasKeepalive := true), err)
    case AllowedIPWord =>
      var (net, err) := NetRead(o, r.err, value);
      WithLast(r, if net.Some? then p.(allowedIPs := p.allowedIPs + [net.value]) else p, err)
    case ProtocolWord =>
      var (n, err) := IntRead(r.err, value);
      WithLast(r, p.(protocolVersion := n), err)
    case _ => r
  }

  function NextPeer(r: Reading, value: string): Reading {
    var (k, err) := KeyRead(r.err, value);
    r.(d := r.d.(peers := r.d.peers + [EMPTY_PEER.(publicKey := k)]), err := err, parsePeers := true,
      peers := r.peers + 1)
  }

  function Step(o: Outside, r: Reading, key: string, value: string): Reading
    requires Consistent(r)
  {
    var word := WordOf(key);
    if word == PublicKeyWord then NextPeer(r, value)
    else
      var (n, err) := if word == ErrnoWord then IntRead(r.err, value) else (0, r.err);
      if n != 0 then r.(err := Some(Errno(n)))
      else if r.parsePeers then PeerWord(o, r.(err := err), word, value)
      else DeviceWord(r.(err := err), word, value)
  }

  lemma {:induction false} NextPeerConsistent(r: Reading, value: string)
    requires Consistent(r)
    ensures Consistent(NextPeer(r, value))
  {
    hide KeyRead;
  }

  lemma {:induction false} DeviceWordConsistent(r: Reading, word: Word, value: string)
    requires Consistent(r)
    ensures Consistent(DeviceWord(r, word, value))
  {
    hide KeyRead, IntRead;
  }

  lemma {:induction false} PeerWordConsistent(o: Outside, r: Reading, word: Word, value: string)
    requires Consistent(r) && r.parsePeers
    ensures Consistent(PeerWord(o, r, word, value))
  {
    hide KeyRead, IntRead, AddrRead, NetRead;
  }

  /** Every line keeps the peer count and the mode in step with the device. */
  lemma {:induction false} StepConsistent(o: Outside, r: Reading, key: string, value: string)
    requires Consistent(r)
    ensures Consistent(Step(o, r, key, value))
  {
    hide KeyRead, IntRead, AddrRead, NetRead, WordOf, PeerWord, DeviceWord, NextPeer;
    var word := WordOf(key);
    var (n, err) := if word == ErrnoWord then IntRead(r.err, value) else (0, r.err);
    NextPeerConsistent(r, value);
    DeviceWordConsistent(r.(err := err), word, value);
    if r.parsePeers {
      PeerWordConsistent(o, r.(err := err), word, value);
    }
  }

  // ----- the parser -----

  class DeviceParser {
    var d: Device
    var err: Option<ReadError>
    var parsePeers: bool
    var peers: nat
    var hsSec: int
    var hsNano: int
    const o: Outside

    ghost function State(): Reading
      reads this
    {
      Reading(d, err, parsePeers, peers, hsSec, hsNano)
    }

    ghost predicate Valid()
      reads this
    {
      Consistent(State())
    }

    constructor (o: Outside)
      ensures Valid() && State() == NOTHING && this.o == o
    {
      d, err, parsePeers, peers, hsSec, hsNano := EMPTY_DEVICE, None, false, 0, 0, 0;
      this.o := o;
    }

    /** The device, or the first error. The public key is derived by `publicKey`. */
    method Device(publicKey: Key -> Key) returns (r: Result<Device, ReadError>)
      requires Valid()
      modifies this`d
      ensures r == Finished(old(State()), publicKey)
    {
      if err.Some? {
        return Err(err.value);
      }
      d := d.(publicKey := publicKey(d.privateKey));
      d := d.(hasPublicKey := d.hasPrivateKey);
      r := Ok(d);
    }

    method ParseKey(s: string) returns (k: Key)
      modifies this`err
      ensures (k, err) == KeyRead(old(err), s)
    {
      if err.Some? {
        return ZeroKey();
      }
      var b := DecodeHex(s);
      if b.None? {
        err := Some(BadHex);
        return ZeroKey();
      }
      if |b.value| != KEY_LEN {
        err := Some(BadKeyLength);
        return ZeroKey();
      }
      k := b.value;
    }

    method ParseInt(s: string) returns (n: int)
      modifies this`err
      ensures (n, err) == IntRead(old(err), s)
    {
      if err.Some? {
        return 0;
      }
      var v := Atoi(s);
      if v.None? {
        err := Some(BadNumber);
        return 0;
      }
      n := v.value;
    }

    method ParseAddr(s: string) returns (addr: Option<UDPAddr>)
      modifies this`err
      ensures (addr, err) == AddrRead(o, old(err), s)
    {
      if err.Some? {
        return None;
      }
      addr := ReadUDPAddr(o, s);
      if addr.None? {
        err := Some(BadAddress);
      }
    }

    method ParseCIDR(s: string) returns (net: Option<Cidr>)
      modifies this`err
      ensures (net, err) == NetRead(o, old(err), s)
    {
      if err.Some? {
        return None;
      }
      net := ReadNetwork(o, s);
      if net.None? {
        err := Some(BadNetwork);
      }
    }

    /** Writing the fields of the current peer. */
    method SetLast(p: Peer, ghost was: Reading)
      requires Consistent(was) && was.parsePeers && State() == was.(err := err, hsNano := hsNano)
      modifies this`d
      ensures State() == WithLast(was, p, err).(hsNano := hsNano)
      ensures hsNano == was.hsNano ==> State() == WithLast(was, p, err)
    {
      d := d.(peers := d.peers[peers - 1 := p]);
    }

    method PeerParse(word: Word, value: string)
      requires Valid() && parsePeers
      modifies this
      ensures State() == PeerWord(o, old(State()), word, value)
    {
      hide KeyRead, IntRead, AddrRead, NetRead, UnixTime, Int64, WithLast;
      ghost var was := State();
      var p := d.peers[peers - 1];
      match word {
        case PresharedKeyWord =>
          var k := ParseKey(value);
          p := p.(presharedKey := k, hasPresharedKey := true);
          SetLast(p, was);
        case EndpointWord =>
          var e := ParseAddr(value);
          p := p.(endpoint := e);
          SetLast(p, was);
        case HandshakeSecWord =>
          hsSec := ParseInt(value);
        case HandshakeNsecWord =>
          hsNano := ParseInt(value);
          if hsSec > 0 && hsNano > 0 {
            p := p.(lastHandshake := Some(UnixTime(hsSec, hsNano)));
          }
          SetLast(p, was);
        case TxWord =>
          var n := ParseInt(value);
          p := p.(transmitBytes := n);
          SetLast(p, was);
        case RxWord =>
          var n := ParseInt(value);
          p := p.(receiveBytes := n);
          SetLast(p, was);
        case KeepaliveWord =>
          var n := ParseInt(value);
          p := p.(keepalive := Int64(n * SECOND), hasKeepalive := true);
          SetLast(p, was);
        case AllowedIPWord =>
          var net := ParseCIDR(value);
          if net.Some? {
            p := p.(allowedIPs := p.allowedIPs + [net.value]);
          }
          SetLast(p, was);
        case ProtocolWord =>
          var n := ParseInt(value);
          p := p.(protocolVersion := n);
          SetLast(p, was);
        case _ =>
      }
    }

    method Parse(key: string, value: string)
      requires Valid()
      modifies this
      ensures Valid() && State() == Step(o, old(State()), key, value)
    {
      hide KeyRead, IntRead, AddrRead, NetRead, PeerWord;
      StepConsistent(o, State(), key, value);
      var word := WordOf(key);
      match word {
        case ErrnoWord =>
          var errno := ParseInt(value);
          if errno != 0 {
            err := Some(Errno(errno));
            return;
          }
        case PublicKeyWord =>
          parsePeers := true;
          peers := peers + 1;
          var k := ParseKey(value);
          d := d.(peers := d.peers + [EMPTY_PEER.(publicKey := k)]);
          return;
        case _ =>
      }
      if parsePeers {
        PeerParse(word, value);
        return;
      }
      match word {
        case PrivateKeyWord =>
          var k := ParseKey(value);
          d := d.(privateKey := k);
          d := d.(hasPrivateKey := true);
        case ListenPortWord =>
          var n := ParseInt(value);
          d := d.(listenPort := n);
          d := d.(hasListenPort := true);
        case MarkWord =>
          var n := ParseInt(value);
          d := d.(firewallMark := n);
          d := d.(hasFirewallMark := true);
        case _ =>
      }
    }
  }

  function Finished(r: Reading, publicKey: Key -> Key): Result<Device, ReadError> {
    if r.err.Some? then Err(r.err.value)
    else Ok(r.d.(publicKey := publicKey(r.d.privateKey), hasPublicKey := r.d.hasPrivateKey))
  }

  // ----- all lines -----

  /** The lines of a dump, applied in order. */
  function ReadAll(o: Outside, r: Reading, pairs: seq<(string, string)>): (after: Reading)
    requires Consistent(r)
    ensures Consistent(after)
    decreases |pairs|
  {
    if pairs == [] then r
    else
      var before := ReadAll(o, r, pairs[..|pairs| - 1]);
      var (key, value) := pairs[|pairs| - 1];
      StepConsistent(o, before, key, value);
      Step(o, before, key, value)
  }

  function KeyValue(line: string): Option<(string, string)> {
    var parts := Split(line, '=');
    if |parts| == 2 then Some((parts[0], parts[1])) else None
  }

  /** bufio.MaxScanTokenSize */
  const MAX_TOKEN := 64 * 1024

  predicate Pair(line: string) {
    ByteLength(line) < MAX_TOKEN && DropCR(line) != "" && KeyValue(DropCR(line)).Some?
  }

  /** How many lines are read before the end of the dump or the first bad line. */
  function PairCount(lines: seq<string>): (n: nat)
    ensures n <= |lines|
  {
    if lines == [] || !Pair(lines[0]) then 0 else 1 + PairCount(lines[1..])
  }

  lemma {:induction false} PairCountStops(lines: seq<string>, i: nat)
    requires i < |lines|
    ensures i < PairCount(lines) ==> Pair(lines[i])
    ensures i == PairCount(lines) ==> !Pair(lines[i])
  {
    hide Pair;
    if i > 0 && Pair(lines[0]) {
      PairCountStops(lines[1..], i - 1);
    }
  }

  function PairsOf(lines: seq<string>): (r: seq<(string, string)>)
    ensures |r| == |lines|
  {
    if lines == [] then []
    else PairsOf(lines[..|lines| - 1]) + [KeyValue(DropCR(lines[|lines| - 1])).GetOr(("", ""))]
  }

  datatype Failure = BadPair(line: nat) | TooLong | Unreadable(error: ReadError)

  /** An empty line, or the end of the stream, ends the dump. */
  function Outcome(o: Outside, text: string, publicKey: Key -> Key): Result<Device, Failure> {
    var lines := Lines(text);
    var n := PairCount(lines);
    if n < |lines| && ByteLength(lines[n]) >= MAX_TOKEN then Err(TooLong)
    else if n < |lines| && DropCR(lines[n]) != "" then Err(BadPair(n + 1))
    else
      match Finished(ReadAll(o, NOTHING, PairsOf(lines[..n])), publicKey)
      case Ok(d) => Ok(d)
      case Err(e) => Err(Unreadable(e))
  }

  method ParseDevice(o: Outside, text: string, publicKey: Key -> Key) returns (r: Result<Device, Failure>)
    ensures r == Outcome(o, text, publicKey)
  {
    hide Step, Lines, DropCR, KeyValue, ByteLength, Finished, PairCount;
    var dp := new DeviceParser(o);
    var lines := Lines(text);
    ghost var n := PairCount(lines);
    assert lines[..0] == [];
    var i := 0;
    while i < |lines|
      invariant 0 <= i <= n
      invariant dp.Valid() && dp.State() == ReadAll(o, NOTHING, PairsOf(lines[..i]))
    {
      Snoc(lines, i);
      PairCountStops(lines, i);
      if ByteLength(lines[i]) >= MAX_TOKEN {
        return Err(TooLong);
      }
      var b := DropCR(lines[i]);
      if |b| == 0 {
        break;
      }
      var kv := KeyValue(b);
      if kv.None? {
        return Err(BadPair(i + 1));
      }
      assert PairsOf(lines[..i + 1])[..i] == PairsOf(lines[..i]);
      dp.Parse(kv.value.0, kv.value.1);
      i := i + 1;
    }
    Whole(lines);
    var d := dp.Device(publicKey);
    r := match d case Ok(v) => Ok(v) case Err(e) => Err(Unreadable(e));
  }

  // ----- the error latch -----

  /** Whether a peer has started. */
  predicate InPeers(pairs: seq<(string, string)>) {
    exists i :: 0 <= i < |pairs| && WordOf(pairs[i].0) == PublicKeyWord
  }

  function KeyError(s: string): Option<ReadError> {
    match DecodeHex(s)
    case None => Some(BadHex)
    case Some(b) => if |b| == KEY_LEN then None else Some(BadKeyLength)
  }

  function IntError(s: string): Option<ReadError> {
    if Atoi(s).None? then Some(BadNumber) else None
  }

  /** What is wrong with one line on its own, in the device part or in the peer part. */
  function LineError(o: Outside, inPeers: bool, word: Word, value: string): Option<ReadError> {
    match word
    case ErrnoWord =>
      (match Atoi(value)
       case None => Some(BadNumber)
       case Some(n) => if n != 0 then Some(Errno(n)) else None)
    case PublicKeyWord => KeyError(value)
    case PrivateKeyWord => if inPeers then None else KeyError(value)
    case ListenPortWord => if inPeers then None else IntError(value)
    case MarkWord => if inPeers then None else IntError(value)
    case OtherWord => None
    case _ =>
      if !inPeers then None
      else
        match word
        case PresharedKeyWord => KeyError(value)
        case EndpointWord => if ReadUDPAddr(o, value).None? then Some(BadAddress) else None
        case AllowedIPWord => if ReadNetwork(o, value).None? then Some(BadNetwork) else None
        case _ => IntError(value)
  }

  /** The error of the first line that has one. */
  function FirstError(o: Outside, pairs: seq<(string, string)>): Option<ReadError>
  {
    if pairs == [] then None
    else
      var init := pairs[..|pairs| - 1];
      var (key, value) := pairs[|pairs| - 1];
      var earlier := FirstError(o, init);
      if earlier.Some? then earlier else LineError(o, InPeers(init), WordOf(key), value)
  }

  function PeerCount(pairs: seq<(string, string)>): nat
  {
    if pairs == [] then 0
    else PeerCount(pairs[..|pairs| - 1]) + if WordOf(pairs[|pairs| - 1].0) == PublicKeyWord then 1 else 0
  }

  lemma {:induction false} StepError(o: Outside, r: Reading, key: string, value: string)
    requires Consistent(r)
    ensures Step(o, r, key, value).err ==
            if r.err.Some? then r.err else LineError(o, r.parsePeers, WordOf(key), value)
    ensures Step(o, r, key, value).peers == r.peers + if WordOf(key) == PublicKeyWord then 1 else 0
  {
    hide DecodeHex, Atoi, ReadUDPAddr, ReadNetwork, WordOf;
  }

  lemma {:induction false} InPeersSnoc(pairs: seq<(string, string)>)
    ensures InPeers(pairs) <==> PeerCount(pairs) > 0
  {
    hide WordOf;
    if pairs == [] {
    } else {
      var init := pairs[..|pairs| - 1];
      InPeersSnoc(init);
      assert forall i :: 0 <= i < |init| ==> init[i] == pairs[i];
    }
  }

  /**
   * For every sequence of lines: one peer for each public_key line, and the error that
   * stands is that of the first faulty line, whatever follows it.
   */
  lemma {:induction false} ErrorIsFirst(o: Outside, pairs: seq<(string, string)>)
    ensures ReadAll(o, NOTHING, pairs).err == FirstError(o, pairs)
    ensures |ReadAll(o, NOTHING, pairs).d.peers| == PeerCount(pairs)
  {
    hide Step, LineError, WordOf;
    if pairs == [] {
    } else {
      var init := pairs[..|pairs| - 1];
      var (key, value) := pairs[|pairs| - 1];
      ErrorIsFirst(o, init);
      InPeersSnoc(init);
      StepError(o, ReadAll(o, NOTHING, init), key, value);
    }
  }

  lemma {:induction false} FirstErrorStays(o: Outside, pairs: seq<(string, string)>, more: seq<(string, string)>)
    requires FirstError(o, pairs).Some?
    ensures FirstError(o, pairs + more) == FirstError(o, pairs)
    decreases |more|
  {
    hide LineError, WordOf;
    if more == [] {
      assert pairs + more == pairs;
    } else {
      var init := more[..|more| - 1];
      assert (pairs + more)[..|pairs + more| - 1] == pairs + init;
      FirstErrorStays(o, pairs, init);
    }
  }

  /** Once a line has failed, no later line changes what Device returns. */
  lemma {:induction false} ErrorLatched(o: Outside, pairs: seq<(string, string)>, more: seq<(string, string)>,
      publicKey: Key -> Key)
    requires FirstError(o, pairs).Some?
    ensures Finished(ReadAll(o, NOTHING, pairs + more), publicKey) == Err(FirstError(o, pairs).value)
  {
    hide FirstError, ReadAll;
    ErrorIsFirst(o, pairs + more);
    FirstErrorStays(o, pairs, more);
  }
}
