/**
 * Exactly which texts the parser of the userspace protocol accepts as keys, numbers, networks and
 * endpoints, and which lines of a dump it heeds.
 */
module UserValues {
  import opened Wrappers
  import opened WgTypes
  import opened Text
  import opened Numbers
  import opened Addresses
  import opened ConfigValues
  import opened UserText
  import opened UserParse

  // ----- keys and numbers -----

  /** A key is read from the hexadecimal digits of its bytes, in either case. */
  lemma {:induction false} HexExactly(s: string, b: seq<byte>)
    ensures DecodeHex(s) == Some(b) <==> Lower(s) == HexText(b)
    decreases |s|
  {
    hide LowerChar, DigitValue, DigitChar;
    if s == [] || b == [] {
    } else if |s| == 1 {
      assert |HexText(b)| > 1;
    } else {
      var init, hi, lo := s[..|s| - 2], s[|s| - 2], s[|s| - 1];
      var rest, x := b[..|b| - 1], b[|b| - 1];
      HexExactly(init, rest);
      assert b == rest + [x];
      assert Lower(s) == Lower(init) + [LowerChar(hi), LowerChar(lo)];
      assert HexText(b) == HexText(rest) + [DigitChar(x / 16), DigitChar(x % 16)];
      SameDigit(hi, x / 16);
      SameDigit(lo, x % 16);
      TwoMore(Lower(init), [LowerChar(hi), LowerChar(lo)], HexText(rest), [DigitChar(x / 16), DigitChar(x % 16)]);
    }
  }

  lemma {:induction false} TwoMore(a: string, b: string, c: string, d: string)
    requires |b| == |d| == 2
    ensures a + b == c + d <==> a == c && b[0] == d[0] && b[1] == d[1]
  {
    if a + b == c + d {
      assert (a + b)[..|a|] == a && (c + d)[..|c|] == c;
      assert (a + b)[|a|..] == b && (c + d)[|c|..] == d;
    }
    if a == c && b[0] == d[0] && b[1] == d[1] {
      assert b == d;
    }
  }

  lemma {:induction false} SameDigit(c: char, d: int)
    requires 0 <= d < 16
    ensures LowerChar(c) == DigitChar(d) <==> DigitValue(c) == d
  {
  }

  /** A number of 64 bits, with a sign or without. */
  predicate Integer(s: string, n: int) {
    && -0x8000_0000_0000_0000 <= n < 0x8000_0000_0000_0000
    && if "-" <= s then n <= 0 && Decimal(s[1..], -n)
       else n >= 0 && Decimal(if "+" <= s then s[1..] else s, n)
  }

  lemma {:induction false} IntegerExactly(s: string, n: int)
    ensures Atoi(s) == Some(n) <==> Integer(s, n)
  {
    hide ParseUint, Decimal;
    var digits := if s != "" && (s[0] == '-' || s[0] == '+') then s[1..] else s;
    DecimalExactly(digits, 0x1_0000_0000_0000_0000, if n < 0 then -n else n);
    assert "-" <= s <==> s != "" && s[0] == '-';
    assert "+" <= s <==> s != "" && s[0] == '+';
  }

  // ----- endpoints -----

  /** An address; an IPv6 one may have a zone. */
  ghost predicate Addressed(o: Outside, host: string, ip: IP, zone: string) {
    if zone == "" then Stands(o, host, ip)
    else exists addr, b :: host == addr + "%" + zone && Names(o, addr, IP6(b)) && Unmap(IP6(b)) == ip
  }

  lemma {:induction false} ZonedExactly(o: Outside, host: string, ip: IP, zone: string)
    requires LawfulIP6(o)
    ensures ReadZoned(o, host) == Some((ip, zone)) <==> Addressed(o, host, ip, zone)
  {
    hide ReadZoned, Addressed, LawfulIP6;
    if zone == "" {
      NoZone(o, host, ip);
    } else {
      ZoneIsRead(o, host, ip, zone);
    }
  }

  lemma {:induction false} NoZone(o: Outside, host: string, ip: IP)
    requires LawfulIP6(o)
    ensures ReadZoned(o, host) == Some((ip, "")) <==> Addressed(o, host, ip, "")
  {
    hide ReadIP, ReadAddr, Stands, LawfulIP6;
    IPExactly(o, host, ip);
    if First(host, '%') < |host| {
      NoPercent(o, host);
    }
  }

  lemma {:induction false} ZoneIsRead(o: Outside, host: string, ip: IP, zone: string)
    requires LawfulIP6(o) && zone != ""
    ensures ReadZoned(o, host) == Some((ip, zone)) <==> Addressed(o, host, ip, zone)
  {
    hide ReadZoned, Names, LawfulIP6, Unmap;
    if ReadZoned(o, host) == Some((ip, zone)) {
      ZoneWasThere(o, host, ip, zone);
    }
    if Addressed(o, host, ip, zone) {
      var addr, b :| host == addr + "%" + zone && Names(o, addr, IP6(b)) && Unmap(IP6(b)) == ip;
      ZoneReads(o, addr, b, zone);
    }
  }

  lemma {:induction false} ZoneWasThere(o: Outside, host: string, ip: IP, zone: string)
    requires LawfulIP6(o) && zone != "" && ReadZoned(o, host) == Some((ip, zone))
    ensures Addressed(o, host, ip, zone)
  {
    hide ReadIP, ReadAddr, Names, LawfulIP6, Unmap, First;
    var i := First(host, '%');
    AddrExactly(o, host[..i], ReadAddr(o, host[..i]).value);
    assert host == host[..i] + "%" + zone;
  }

  lemma {:induction false} ZoneReads(o: Outside, addr: string, b: Bytes16, zone: string)
    requires LawfulIP6(o) && zone != "" && Names(o, addr, IP6(b))
    ensures ReadZoned(o, addr + "%" + zone) == Some((Unmap(IP6(b)), zone))
  {
    hide ReadIP, ReadAddr, Names, LawfulIP6, Unmap, First;
    ZoneBehind(o, addr, b, zone);
    AddrExactly(o, addr, IP6(b));
  }

  lemma {:induction false} ZoneBehind(o: Outside, addr: string, b: Bytes16, zone: string)
    requires LawfulIP6(o) && Names(o, addr, IP6(b))
    ensures var host := addr + "%" + zone;
            && First(host, '%') == |addr| && First(host, ':') < First(host, '.')
            && host[..|addr|] == addr && host[|addr| + 1..] == zone
  {
    hide LawfulIP6;
    var host := addr + "%" + zone;
    AddrPlain(o, addr, IP6(b));
    FirstAfter(addr, '%', zone);
    assert host == addr + ['%'] + zone;
    var colon := First(addr, ':');
    assert host[colon] == ':' && forall j :: 0 <= j < colon ==> host[j] == addr[j];
  }

  /** A name that is no address is looked up once. */
  ghost predicate Found(o: Outside, host: string, ip: IP) {
    && (forall a, zone :: !Addressed(o, host, a, zone))
    && o.failures(host) == 0 && o.settled(host).Found? && Preferred(o.settled(host).ips) == Some(ip)
  }

  /** A host that is not empty, with its colons in brackets, and a port. */
  predicate HostAndPort(s: string, host: string, port: string) {
    && Apart(s, host, port) && Bare(host) && Bare(port) && ("[" <= s || Absent(host, ':'))
    && host != ""
  }

  lemma {:induction false} FoundExactly(o: Outside, host: string, ip: IP, zone: string)
    requires LawfulIP6(o)
    ensures Addressed(o, host, ip, zone) || (zone == "" && Found(o, host, ip)) <==>
            match ReadZoned(o, host)
            case Some(l) => l == (ip, zone)
            case None =>
              zone == "" && o.failures(host) == 0 && o.settled(host).Found?
                && Preferred(o.settled(host).ips) == Some(ip)
  {
    hide ReadZoned, Addressed, Preferred, LawfulIP6;
    ZonedExactly(o, host, ip, zone);
    match ReadZoned(o, host)
    case Some(l) =>
      ZonedExactly(o, host, l.0, l.1);
    case None =>
      forall a, z
        ensures !Addressed(o, host, a, z)
      {
        ZonedExactly(o, host, a, z);
      }
  }

  /** What an endpoint is read from. */
  lemma {:induction false} UDPAddrExactly(o: Outside, s: string, e: UDPAddr)
    requires LawfulIP6(o)
    ensures ReadUDPAddr(o, s) == Some(e) <==>
            exists host, port ::
              && HostAndPort(s, host, port) && o.lookupPort(port) == Some(e.port)
              && (Addressed(o, host, e.ip, e.zone) || (e.zone == "" && Found(o, host, e.ip)))
  {
    hide SplitHostPort, Apart, Bare, ReadZoned, Preferred, Addressed, Found, Absent, LawfulIP6;
    if SplitHostPort(s).Some? {
      var (host, port) := SplitHostPort(s).value;
      HostPortExactly(s, host, port);
      FoundExactly(o, host, e.ip, e.zone);
    }
    if host, port :|
      && HostAndPort(s, host, port) && o.lookupPort(port) == Some(e.port)
      && (Addressed(o, host, e.ip, e.zone) || (e.zone == "" && Found(o, host, e.ip)))
    {
      HostPortExactly(s, host, port);
    }
  }

  // ----- lines -----

  /** A line has a key and a value around its only equals sign. */
  lemma {:induction false} KeyValueExactly(line: string, key: string, value: string)
    ensures KeyValue(line) == Some((key, value)) <==>
            line == key + "=" + value && Absent(key, '=') && Absent(value, '=')
  {
    hide Absent, Split, Join;
    var parts := Split(line, '=');
    SplitParts(line, '=');
    JoinSplit(line, '=');
    TwoJoined(key, value);
    if |parts| == 2 {
      TwoJoined(parts[0], parts[1]);
      assert parts == [parts[0], parts[1]];
    }
    if line == key + "=" + value && Absent(key, '=') && Absent(value, '=') {
      SplitJoin([key, value], '=');
    }
  }

  lemma {:induction false} TwoJoined(a: string, b: string)
    ensures Join([a, b], "=") == a + "=" + b
  {
    assert [a, b][1..] == [b];
  }

  const DEVICE_KEYS := {"private_key", "listen_port", "fwmark"}
  const PEER_KEYS := {
    "preshared_key", "endpoint", "persistent_keepalive_interval", "allowed_ip", "last_handshake_time_sec",
    "last_handshake_time_nsec", "tx_bytes", "rx_bytes", "protocol_version"}

  /** A line that means something where it stands, in the device part or behind the first public key. */
  predicate Matters(key: string, inPeers: bool) {
    key == "errno" || key == "public_key" || key in if inPeers then PEER_KEYS else DEVICE_KEYS
  }

  predicate PeersBegun(pairs: seq<(string, string)>) {
    exists p <- pairs :: p.0 == "public_key"
  }

  /** The lines that matter. */
  function Heeded(pairs: seq<(string, string)>): seq<(string, string)>
  {
    if pairs == [] then []
    else
      var init, pair := pairs[..|pairs| - 1], pairs[|pairs| - 1];
      Heeded(init) + if Matters(pair.0, PeersBegun(init)) then [pair] else []
  }

  lemma {:induction false} IdleStep(o: Outside, r: Reading, key: string, value: string)
    requires Consistent(r)
    ensures !Matters(key, r.parsePeers) ==> Step(o, r, key, value) == r
    ensures Step(o, r, key, value).parsePeers <==> r.parsePeers || key == "public_key"
  {
    hide KeyRead, IntRead, AddrRead, NetRead;
  }

  lemma {:induction false} HeededSnoc(init: seq<(string, string)>, pair: (string, string))
    ensures Heeded(init + [pair]) == Heeded(init) + if Matters(pair.0, PeersBegun(init)) then [pair] else []
    ensures PeersBegun(init + [pair]) <==> PeersBegun(init) || pair.0 == "public_key"
  {
    hide Matters;
    var pairs := init + [pair];
    assert pairs[..|pairs| - 1] == init && pair in pairs;
  }

  lemma {:induction false} ReadSnoc(o: Outside, init: seq<(string, string)>, pair: (string, string))
    ensures ReadAll(o, NOTHING, init + [pair]) == Step(o, ReadAll(o, NOTHING, init), pair.0, pair.1)
  {
    hide Step, Consistent;
    assert (init + [pair])[..|init|] == init;
  }

  /** Lines of unknown keys, and of keys of the other part, change nothing. */
  lemma {:induction false} OthersIgnored(o: Outside, pairs: seq<(string, string)>)
    ensures ReadAll(o, NOTHING, pairs) == ReadAll(o, NOTHING, Heeded(pairs))
    ensures ReadAll(o, NOTHING, pairs).parsePeers <==> PeersBegun(pairs)
  {
    if pairs == [] {
    } else {
      hide ReadAll, Heeded, PeersBegun, Step, Matters;
      var init, pair := pairs[..|pairs| - 1], pairs[|pairs| - 1];
      assert pairs == init + [pair];
      OthersIgnored(o, init);
      IdleStep(o, ReadAll(o, NOTHING, init), pair.0, pair.1);
      HeededSnoc(init, pair);
      ReadSnoc(o, init, pair);
      ReadSnoc(o, Heeded(init), pair);
      assert Heeded(init) + [] == Heeded(init);
    }
  }
}
