/**
 * Exactly which texts the parser of a wg(8) file accepts as numbers, networks, lists of networks
 * and endpoints, and what it reads from them; malformed texts are those that remain.
 */
module ConfigValues {
  import opened Wrappers
  import opened WgTypes
  import opened Text
  import opened Numbers
  import opened Addresses
  import opened Endpoints
  import opened ConfigLines
  import opened ConfigSpells

  // ----- numbers -----

  /** The digits of `n`, behind any number of zeros. */
  predicate Decimal(s: string, n: nat) {
    |Format(n, 10)| <= |s| && s == Zeros(|s| - |Format(n, 10)|) + Format(n, 10)
  }

  /** "0x" and hexadecimal digits in either case. */
  predicate Hex(s: string, n: nat) {
    "0x" <= s && |Format(n, 16)| <= |s| - 2 && Lower(s[2..]) == Zeros(|s| - 2 - |Format(n, 16)|) + Format(n, 16)
  }

  predicate Off(s: string) {
    |s| == 3 && (s[0] == 'o' || s[0] == 'O') && (s[1] == 'f' || s[1] == 'F') && (s[2] == 'f' || s[2] == 'F')
  }

  lemma {:induction false} Padded(s: string, text: string)
    ensures (exists z: nat :: s == Zeros(z) + text) <==> |text| <= |s| && s == Zeros(|s| - |text|) + text
  {
    if |text| <= |s| && s == Zeros(|s| - |text|) + text {
      var z: nat := |s| - |text|;
      assert s == Zeros(z) + text;
    }
  }

  lemma {:induction false} DecimalDigits(s: string, n: nat)
    requires Decimal(s, n)
    ensures Digits(s, 10) && Lower(s) == s && s != []
  {
    hide DigitValue, Format;
    FormatPlain(n, 10);
    ZerosIgnored(|s| - |Format(n, 10)|, Format(n, 10), 10);
    DigitsStay(s);
  }

  lemma {:induction false} DecimalExactly(s: string, max: nat, n: nat)
    ensures ParseUint(s, 10, max) == Some(n) <==> n <= max && Decimal(s, n)
  {
    hide Format, Value, Digits, Zeros;
    ParseExactly(s, 10, max, n);
    Padded(Lower(s), Format(n, 10));
    if ParseUint(s, 10, max) == Some(n) {
      DigitsStay(s);
    } else if Decimal(s, n) {
      DecimalDigits(s, n);
    }
  }

  lemma {:induction false} OffExactly(s: string)
    ensures IsOff(s) <==> Off(s)
  {
    if |s| == 3 {
      assert Lower(s) == [LowerChar(s[0]), LowerChar(s[1]), LowerChar(s[2])];
    }
  }

  /** What ports, intervals and marks are read from. */
  lemma {:induction false} NumbersExactly(s: string, n: nat)
    ensures ReadPort(s) == Some(n) <==> n <= 65535 && Decimal(s, n)
    ensures ReadKeepalive(s) == Some(n) <==> (Off(s) && n == 0) || (n <= 65535 && Decimal(s, n))
    ensures ReadMark(s) == Some(n) <==> (Off(s) && n == 0) || (n <= 4294967295 && (Decimal(s, n) || Hex(s, n)))
  {
    hide ParseUint, Format, IsOff, Zeros;
    OffExactly(s);
    DecimalExactly(s, 65535, n);
    DecimalExactly(s, 4294967295, n);
    if Decimal(s, n) {
      DecimalDigits(s, n);
      assert DigitValue(s[0]) < 10 && (|s| > 1 ==> DigitValue(s[1]) < 10);
    }
    if "0x" <= s {
      ParseExactly(s[2..], 16, 4294967295, n);
      Padded(Lower(s[2..]), Format(n, 16));
      assert s[1] == 'x';
    }
  }

  // ----- addresses -----

  /** An IPv4 address in its one text, or a text of an IPv6 address, which has a colon before any dot. */
  predicate Names(o: Outside, s: string, ip: IP) {
    match ip
    case IP4(b) => s == WriteIP4(b)
    case IP6(b) => o.readIP6(s) == Some(b) && First(s, ':') < First(s, '.')
  }

  /** A text of the address or of the IPv6 address that stands for it. */
  ghost predicate Stands(o: Outside, s: string, ip: IP) {
    exists a :: Names(o, s, a) && Unmap(a) == ip
  }

  lemma {:induction false} Readable(s: string)
    requires IP6Readable(s)
    ensures Absent(s, '%') && Absent(s, '/') && Absent(s, '+') && Absent(s, '-')
  {
  }

  lemma {:induction false} AddrExactly(o: Outside, s: string, ip: IP)
    requires LawfulIP6(o)
    ensures ReadAddr(o, s) == Some(ip) <==> Names(o, s, ip)
  {
    hide ReadIP4, WriteIP4, IP6Readable, Absent;
    match ip
    case IP4(b) =>
      ReadIP4Exactly(s, b);
      if Names(o, s, ip) {
        IP4AddrReads(o, b);
      }
    case IP6(b) =>
      if Names(o, s, ip) {
        Readable(s);
        FirstNone(s, '%');
      }
  }

  lemma {:induction false} IPExactly(o: Outside, s: string, ip: IP)
    requires LawfulIP6(o)
    ensures ReadIP(o, s) == Some(ip) <==> Stands(o, s, ip)
  {
    hide ReadAddr, Names, Unmap, LawfulIP6;
    var r := ReadAddr(o, s);
    if r.Some? {
      AddrExactly(o, s, r.value);
    }
    if Stands(o, s, ip) {
      var a :| Names(o, s, a) && Unmap(a) == ip;
      AddrExactly(o, s, a);
    }
  }

  lemma {:induction false} AddrPlain(o: Outside, s: string, ip: IP)
    requires LawfulIP6(o) && Names(o, s, ip)
    ensures s != "" && Absent(s, '/') && Absent(s, '%') && s[0] != '+' && s[0] != '-'
  {
    hide WriteIP4, IP6Readable;
    match ip
    case IP4(b) =>
      IP4RoundTrip(b);
    case IP6(b) =>
      Readable(s);
  }

  // ----- networks -----

  /** An address and the length of its mask. */
  ghost predicate NamesNet(o: Outside, s: string, c: Cidr) {
    exists addr, mask :: s == addr + "/" + mask && Names(o, addr, CidrIP(c)) && Decimal(mask, CidrOnes(c))
  }

  lemma {:induction false} CidrExactly(o: Outside, s: string, c: Cidr)
    requires LawfulIP6(o)
    ensures ReadCidr(o, s) == Some(c) <==> NamesNet(o, s, c)
  {
    hide ReadAddr, Names, Decimal, ParseUint, LawfulIP6;
    if ReadCidr(o, s) == Some(c) {
      var (addr, mask) := Cut(s, '/').value;
      AddrExactly(o, addr, CidrIP(c));
      DecimalExactly(mask, CidrBits(c), CidrOnes(c));
      assert s == addr + "/" + mask;
    }
    if NamesNet(o, s, c) {
      var addr, mask :| s == addr + "/" + mask && Names(o, addr, CidrIP(c)) && Decimal(mask, CidrOnes(c));
      AddrPlain(o, addr, CidrIP(c));
      AddrExactly(o, addr, CidrIP(c));
      DecimalExactly(mask, CidrBits(c), CidrOnes(c));
      FirstAfter(addr, '/', mask);
      assert s == addr + ['/'] + mask;
    }
  }

  /** A network with its mask, or a lone address for the network of that address only. */
  ghost predicate Denotes(o: Outside, s: string, c: Cidr) {
    NamesNet(o, s, c) || (CidrOnes(c) == CidrBits(c) && Stands(o, s, CidrIP(c)))
  }

  lemma {:induction false} HasSlash(o: Outside, s: string, c: Cidr)
    requires LawfulIP6(o)
    ensures NamesNet(o, s, c) ==> !Absent(s, '/')
    ensures Stands(o, s, CidrIP(c)) ==> Absent(s, '/')
  {
    hide Names, Decimal, Unmap, LawfulIP6;
    if NamesNet(o, s, c) {
      var addr, mask :| s == addr + "/" + mask && Names(o, addr, CidrIP(c)) && Decimal(mask, CidrOnes(c));
      assert s[|addr|] == '/';
    }
    if Stands(o, s, CidrIP(c)) {
      var a :| Names(o, s, a) && Unmap(a) == CidrIP(c);
      AddrPlain(o, s, a);
    }
  }

  lemma {:induction false} NetExactly(o: Outside, s: string, c: Cidr)
    requires LawfulIP6(o)
    ensures ReadNet(o, s) == Some(c) <==> Denotes(o, s, c)
  {
    hide ReadCidr, ReadIP, NamesNet, Stands, Absent, LawfulIP6;
    CidrExactly(o, s, c);
    IPExactly(o, s, CidrIP(c));
    HasSlash(o, s, c);
  }

  lemma {:induction false} Unsigned(o: Outside, s: string, c: Cidr)
    requires LawfulIP6(o) && Denotes(o, s, c)
    ensures s != "" && s[0] != '+' && s[0] != '-'
  {
    hide Names, Decimal, Unmap, LawfulIP6;
    if NamesNet(o, s, c) {
      var addr, mask :| s == addr + "/" + mask && Names(o, addr, CidrIP(c)) && Decimal(mask, CidrOnes(c));
      AddrPlain(o, addr, CidrIP(c));
      assert s[0] == addr[0];
    } else {
      var a :| Names(o, s, a) && Unmap(a) == CidrIP(c);
      AddrPlain(o, s, a);
    }
  }

  // ----- lists of networks -----

  /** A sign or none, and a network. */
  ghost predicate Asks(o: Outside, s: string, op: AllowedIPConfig) {
    exists body :: s == SignText(op.operation) + body && Denotes(o, body, op.net)
  }

  lemma {:induction false} OperationExactly(o: Outside, s: string, op: AllowedIPConfig)
    requires LawfulIP6(o)
    ensures ReadOperation(o, s) == Some(op) <==> Asks(o, s, op)
  {
    hide ReadNet, Denotes, LawfulIP6;
    if ReadOperation(o, s) == Some(op) {
      var body := if Signed(s) then s[1..] else s;
      NetExactly(o, body, op.net);
      assert s == SignText(op.operation) + body;
    }
    if Asks(o, s, op) {
      var body :| s == SignText(op.operation) + body && Denotes(o, body, op.net);
      NetExactly(o, body, op.net);
      Unsigned(o, body, op.net);
      assert op.operation == AllowedIPSet ==> s == body;
      assert op.operation != AllowedIPSet ==> s[1..] == body;
    }
  }

  lemma {:induction false} PartsAsk(o: Outside, parts: seq<string>, ops: seq<AllowedIPConfig>)
    requires LawfulIP6(o)
    ensures ReadOperations(o, parts) == Some(ops) <==>
            |parts| == |ops| && forall i :: 0 <= i < |parts| ==> Asks(o, Trim(parts[i]), ops[i])
    decreases |parts|
  {
    hide ReadOperation, Asks, Trim, LawfulIP6;
    if parts == [] {
    } else if ops != [] {
      var init, last := parts[..|parts| - 1], |parts| - 1;
      PartsAsk(o, init, ops[..|ops| - 1]);
      OperationExactly(o, Trim(parts[last]), ops[|ops| - 1]);
      assert ops == ops[..|ops| - 1] + [ops[|ops| - 1]];
    }
  }

  lemma {:induction false} SplitParts(s: string, c: char)
    ensures AllAbsent(Split(s, c), c)
    decreases |s|
  {
    var i := First(s, c);
    if i < |s| {
      SplitParts(s[i + 1..], c);
    }
  }

  /** Entries between commas, with space around them; no entry at all for an empty text. */
  ghost predicate Lists(o: Outside, s: string, ops: seq<AllowedIPConfig>) {
    if s == "" then ops == []
    else
      exists parts: seq<string> ::
        && parts != [] && AllAbsent(parts, ',') && s == Join(parts, ",")
        && |parts| == |ops| && forall i :: 0 <= i < |parts| ==> Asks(o, Trim(parts[i]), ops[i])
  }

  /** What a list of allowed IPs is read from. */
  lemma {:induction false} AllowedIPsExactly(o: Outside, s: string, ops: seq<AllowedIPConfig>)
    requires LawfulIP6(o)
    ensures ReadAllowedIPs(o, s) == Some(ops) <==> Lists(o, s, ops)
    ensures ReadAllowedIPs(o, s) == Some(ops) ==> (Incremental(s) <==> exists op <- ops :: op.operation != AllowedIPSet)
  {
    hide Asks, Trim, ReadOperations, Split, Join, LawfulIP6;
    PartsAsk(o, Parts(s), ops);
    if s != "" {
      SplitParts(s, ',');
      JoinSplit(s, ',');
      if Lists(o, s, ops) {
        var parts: seq<string> :|
          && parts != [] && AllAbsent(parts, ',') && s == Join(parts, ",")
          && |parts| == |ops| && forall i :: 0 <= i < |parts| ==> Asks(o, Trim(parts[i]), ops[i]);
        SplitJoin(parts, ',');
      }
    }
    if ReadAllowedIPs(o, s) == Some(ops) {
      SignedExactly(o, Parts(s), ops);
    }
  }

  lemma {:induction false} SignedExactly(o: Outside, parts: seq<string>, ops: seq<AllowedIPConfig>)
    requires LawfulIP6(o) && |parts| == |ops| && forall i :: 0 <= i < |parts| ==> Asks(o, Trim(parts[i]), ops[i])
    ensures SomeSigned(parts) <==> exists op <- ops :: op.operation != AllowedIPSet
  {
    hide Asks, Trim, Signed, LawfulIP6;
    forall i | 0 <= i < |parts|
      ensures Signed(Trim(parts[i])) <==> ops[i].operation != AllowedIPSet
    {
      SignIs(o, Trim(parts[i]), ops[i]);
    }
    if op :| op in ops && op.operation != AllowedIPSet {
      var i :| 0 <= i < |ops| && ops[i] == op;
      assert Signed(Trim(parts[i]));
    }
  }

  lemma {:induction false} SignIs(o: Outside, s: string, op: AllowedIPConfig)
    requires LawfulIP6(o) && Asks(o, s, op)
    ensures Signed(s) <==> op.operation != AllowedIPSet
  {
    hide Denotes, LawfulIP6;
    var body :| s == SignText(op.operation) + body && Denotes(o, body, op.net);
    Unsigned(o, body, op.net);
    assert op.operation == AllowedIPSet ==> s == body;
  }

  // ----- endpoints -----

  predicate Bare(s: string) {
    Absent(s, '[') && Absent(s, ']')
  }

  /** A host and a port around the last colon; a host that starts with a bracket is in a pair of brackets. */
  predicate Apart(s: string, host: string, port: string) {
    && Absent(port, ':')
    && if "[" <= s then Bare(host) && Bare(port) && s == "[" + host + "]:" + port else s == host + ":" + port
  }

  lemma {:induction false} HostPortExactly(s: string, host: string, port: string)
    ensures SplitHostPort(s) == Some((host, port)) <==>
            Apart(s, host, port) && Bare(host) && Bare(port) && ("[" <= s || Absent(host, ':'))
  {
    hide First, AfterLast;
    if "[" <= s {
      if SplitHostPort(s) == Some((host, port)) {
        BracketsAround(s, host, port);
      } else if Apart(s, host, port) {
        SplitBracketed(host, port);
      }
    } else {
      ColonBetween(s, host, port);
    }
  }

  lemma {:induction false} BracketsAround(s: string, host: string, port: string)
    requires "[" <= s && SplitHostPort(s) == Some((host, port))
    ensures Apart(s, host, port) && Bare(host) && Bare(port)
  {
    hide First, AfterLast, Absent;
    var end := First(s, ']');
    assert s[1..end] == host && s[end + 2..] == port;
    assert s[0] == '[' && s[end] == ']' && s[end + 1] == ':';
    assert s == "[" + host + "]:" + port;
    assert s[1..] == host + ("]:" + port) && s[end + 1..] == [':'] + port;
    AbsentBoth(host, "]:" + port, '[');
    AbsentBoth("]:", port, '[');
    assert "]:" + port == "]" + (":" + port);
    AbsentBoth([':'], port, ']');
    BeforeFirst(s, host, ']');
    BehindLast(s, port, ':');
  }

  lemma {:induction false} AbsentBoth(a: string, b: string, c: char)
    ensures Absent(a + b, c) ==> Absent(a, c) && Absent(b, c)
  {
    if Absent(a + b, c) {
      assert forall i :: 0 <= i < |a| ==> (a + b)[i] == a[i];
      assert forall i :: 0 <= i < |b| ==> (a + b)[|a| + i] == b[i];
    }
  }

  lemma {:induction false} BeforeFirst(s: string, a: string, c: char)
    requires 0 < First(s, c) && a == s[1..First(s, c)]
    ensures Absent(a, c)
  {
    hide First;
    assert forall i :: 0 <= i < |a| ==> a[i] == s[i + 1];
  }

  lemma {:induction false} BehindLast(s: string, b: string, c: char)
    requires b == s[AfterLast(s, c)..]
    ensures Absent(b, c)
  {
    hide AfterLast;
    assert forall i :: 0 <= i < |b| ==> b[i] == s[AfterLast(s, c) + i];
  }

  lemma {:induction false} ColonBetween(s: string, host: string, port: string)
    requires !("[" <= s)
    ensures SplitHostPort(s) == Some((host, port)) <==>
            Absent(port, ':') && Bare(host) && Bare(port) && s == host + ":" + port && Absent(host, ':')
  {
    hide First, AfterLast;
    if SplitHostPort(s) == Some((host, port)) {
      var i := AfterLast(s, ':');
      assert s == s[..i - 1] + [s[i - 1]] + s[i..];
    }
    if Absent(port, ':') && Bare(host) && Bare(port) && s == host + ":" + port && Absent(host, ':') {
      LastBefore(host, ':', port);
      assert s == host + [':'] + port;
    }
  }

  lemma {:induction false} SplitExactly(s: string, host: string, port: string)
    ensures SplitEndpoint(s) == Some((host, port)) <==> Apart(s, host, port)
  {
    hide First, AfterLast, SplitHostPort;
    if "[" <= s {
      HostPortExactly(s, host, port);
    } else {
      var i := AfterLast(s, ':');
      if SplitEndpoint(s) == Some((host, port)) {
        assert s == s[..i - 1] + [s[i - 1]] + s[i..];
      }
      if Apart(s, host, port) {
        LastBefore(host, ':', port);
        assert s == host + [':'] + port;
      }
    }
  }

  /** An address, or one with a zone behind the last percent sign. */
  ghost predicate Spells(o: Outside, host: string, ip: IP, zone: string) {
    || (zone == "" && Stands(o, host, ip))
    || (Absent(zone, '%') && exists addr :: host == addr + "%" + zone && Stands(o, addr, ip))
  }

  lemma {:induction false} LiteralExactly(o: Outside, host: string, ip: IP, zone: string)
    requires LawfulIP6(o)
    ensures Literal(o, host) == Some((ip, zone)) <==> Spells(o, host, ip, zone)
  {
    hide ReadIP, Stands, AfterLast, LawfulIP6;
    var i := AfterLast(host, '%');
    IPExactly(o, host, ip);
    if i > 0 {
      var addr := host[..i - 1];
      assert host == addr + [host[i - 1]] + host[i..];
      IPExactly(o, addr, ip);
      NoPercent(o, host);
    }
    if Absent(zone, '%') && exists addr :: host == addr + "%" + zone && Stands(o, addr, ip) {
      var addr :| host == addr + "%" + zone && Stands(o, addr, ip);
      LastBefore(addr, '%', zone);
      assert host == addr + ['%'] + zone;
    }
  }

  lemma {:induction false} NoPercent(o: Outside, s: string)
    requires LawfulIP6(o) && !Absent(s, '%')
    ensures ReadIP(o, s).None?
  {
    hide ReadIP, Names, LawfulIP6;
    var r := ReadIP(o, s);
    if r.Some? {
      IPExactly(o, s, r.value);
      var a :| Names(o, s, a) && Unmap(a) == r.value;
      AddrPlain(o, s, a);
    }
  }

  /** The first address that a name, which is no literal, has before the retries run out. */
  ghost predicate Resolves(o: Outside, host: string, ip: IP) {
    && (forall a, zone :: !Spells(o, host, a, zone))
    && (Retries(o) == Some(-1) || o.failures(host) <= Retries(o).GetOr(0))
    && o.settled(host).Found? && [ip] <= o.settled(host).ips
  }

  lemma {:induction false} HostExactly(o: Outside, host: string, ip: IP, zone: string)
    requires LawfulIP6(o) && Retries(o).Some?
    ensures Spells(o, host, ip, zone) || (zone == "" && Resolves(o, host, ip)) <==>
            match Literal(o, host)
            case Some(l) => l == (ip, zone)
            case None => zone == "" && LookedUp(o, host, Retries(o).value) == Some(ip)
  {
    hide Literal, Spells, Retries, LawfulIP6;
    LiteralExactly(o, host, ip, zone);
    match Literal(o, host)
    case Some(l) =>
      LiteralExactly(o, host, l.0, l.1);
    case None =>
      forall a, z
        ensures !Spells(o, host, a, z)
      {
        LiteralExactly(o, host, a, z);
      }
  }

  /** What an endpoint is read from. */
  lemma {:induction false} EndpointExactly(o: Outside, s: string, e: UDPAddr)
    requires LawfulIP6(o)
    ensures ReadEndpoint(o, s) == Some(e) <==>
            && Retries(o).Some?
            && (exists host, port ::
                  && Apart(s, host, port) && o.lookupPort(port) == Some(e.port)
                  && (Spells(o, host, e.ip, e.zone) || (e.zone == "" && Resolves(o, host, e.ip))))
  {
    hide SplitEndpoint, Apart, Literal, LookedUp, Spells, Resolves, Retries, LawfulIP6;
    NoColon();
    if Retries(o).Some? {
      if SplitEndpoint(s).Some? {
        var (host, port) := SplitEndpoint(s).value;
        SplitExactly(s, host, port);
        HostExactly(o, host, e.ip, e.zone);
      }
      if host, port :|
        && Apart(s, host, port) && o.lookupPort(port) == Some(e.port)
        && (Spells(o, host, e.ip, e.zone) || (e.zone == "" && Resolves(o, host, e.ip)))
      {
        SplitExactly(s, host, port);
      }
    }
  }

  lemma {:induction false} NoColon()
    ensures SplitEndpoint("").None?
  {
  }

  // ----- lines -----

  /** A word between the brackets that begin and end the line. */
  predicate Titled(line: string, word: string) {
    line == "[" + word + "]"
  }

  /** A line that does not begin and end with a bracket, parted at its first equals sign. */
  predicate Assigns(line: string, key: string, value: string) {
    line == key + "=" + value && Absent(key, '=') && !(line[0] == '[' && line[|line| - 1] == ']')
  }

  /** What a line without a name comment is, from its visible text; every other line is a bad one. */
  lemma {:induction false} LineExactly(raw: string, key: string, value: string)
    requires NameComment(raw).None?
    ensures Classify(raw) == BlankLine <==> Clean(raw) == ""
    ensures Classify(raw) == InterfaceHeader <==> exists word :: Titled(Clean(raw), word) && Lower(word) == "interface"
    ensures Classify(raw) == PeerHeader <==> exists word :: Titled(Clean(raw), word) && Lower(word) == "peer"
    ensures Assigns(Clean(raw), key, value) ==> Classify(raw) == FieldLine(FieldOf(Lower(key)), value)
    ensures Classify(raw).FieldLine? ==> exists k, v :: Assigns(Clean(raw), k, v)
  {
    hide NameComment, Clean, Lower, FieldOf, First;
    var line := Clean(raw);
    if |line| > 1 && line[0] == '[' && line[|line| - 1] == ']' {
      OneTitle(line);
    }
    assert line == "[" ==> Cut(line, '=').None? by {
      FirstNone("[", '=');
    }
    if Assigns(line, key, value) {
      assert line == key + ['='] + value;
      FirstAfter(key, '=', value);
    }
    if Classify(raw).FieldLine? {
      var (k, v) := Cut(line, '=').value;
      assert line == k + "=" + v;
      assert Assigns(line, k, v);
    }
  }

  lemma {:induction false} OneTitle(line: string)
    requires |line| > 1 && line[0] == '[' && line[|line| - 1] == ']'
    ensures forall word :: Titled(line, word) <==> word == line[1..|line| - 1]
  {
    var middle := line[1..|line| - 1];
    assert line == "[" + middle + "]";
    forall word | Titled(line, word)
      ensures word == middle
    {
      assert |word| == |middle|;
      assert forall i :: 0 <= i < |word| ==> word[i] == line[i + 1];
    }
  }
}
