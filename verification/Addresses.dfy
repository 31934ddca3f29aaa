/** Addresses, networks and endpoints as text: Go's net and net/netip packages. */
module Addresses {
  import opened Wrappers
  import opened WgTypes
  import opened Text
  import opened Numbers

  // ----- what is outside the model -----

  /** The answer a name ends with once temporary failures are over. */
  datatype Answer = Found(ips: seq<IP>) | NotFound

  /**
   * The text forms and services this model takes as given: IPv6 text, JSON strings, the
   * port database, and name lookups. A lookup of `host` fails temporarily
   * `failures(host)` times and then gives `settled(host)`.
   */
  datatype Outside = Outside(
    writeIP6: Bytes16 -> string,
    readIP6: string -> Option<Bytes16>,
    writeName: string -> string,
    readName: string -> Option<string>,
    lookupPort: string -> Option<int>,
    failures: string -> nat,
    settled: string -> Answer,
    retries: Option<string>)

  /** IPv6 text is made of hexadecimal digits and colons. */
  predicate IP6Text(s: string) {
    && (forall i :: 0 <= i < |s| ==> Plain(s[i]) || s[i] == ':')
    && !Absent(s, ':')
  }

  /** Reading accepts nothing but such characters, and the dots of an embedded IPv4 address. */
  predicate IP6Readable(s: string) {
    forall i :: 0 <= i < |s| ==> DigitValue(s[i]) < 16 || s[i] == ':' || s[i] == '.'
  }

  ghost predicate LawfulIP6(o: Outside) {
    && (forall b: Bytes16 :: !Mapped(b) ==> IP6Text(o.writeIP6(b)) && o.readIP6(o.writeIP6(b)) == Some(b))
    && (forall s :: o.readIP6(s).Some? ==> IP6Readable(s))
  }

  /** A JSON string is quoted and has no line break in it. */
  predicate Quoted(s: string) {
    |s| >= 2 && s[0] == '"' && s[|s| - 1] == '"' && Absent(s, '\n') && Absent(s, '\r')
  }

  ghost predicate LawfulNames(o: Outside) {
    forall name :: Quoted(o.writeName(name)) && o.readName(o.writeName(name)) == Some(name)
  }

  ghost predicate LawfulPorts(o: Outside) {
    && (forall n: nat :: n <= 65535 ==> o.lookupPort(Format(n, 10)) == Some(n))
    && (forall s :: o.lookupPort(s).Some? ==> 0 <= o.lookupPort(s).value <= 65535)
  }

  ghost predicate Lawful(o: Outside) {
    LawfulIP6(o) && LawfulNames(o) && LawfulPorts(o)
  }

  // ----- IPv4 text -----

  /** One to three digits, at most 255, without a leading zero. */
  function Octet(s: string): Option<nat> {
    if |s| > 1 && s[0] == '0' then None else ParseUint(s, 10, 255)
  }

  function WriteIP4(b: Bytes4): string {
    Join([Format(b[0], 10), Format(b[1], 10), Format(b[2], 10), Format(b[3], 10)], ".")
  }

  function ReadIP4(s: string): Option<Bytes4> {
    var parts := Split(s, '.');
    if |parts| != 4 then None
    else
      var a, b, c, d := Octet(parts[0]), Octet(parts[1]), Octet(parts[2]), Octet(parts[3]);
      if a.None? || b.None? || c.None? || d.None? then None
      else Some([a.value, b.value, c.value, d.value])
  }

  // ----- addresses -----

  function WriteIP(o: Outside, ip: IP): string {
    match Unmap(ip)
    case IP4(b) => WriteIP4(b)
    case IP6(b) => o.writeIP6(b)
  }

  /** netip.ParseAddr: the first of '.', ':' and '%' decides the family. */
  function ReadAddr(o: Outside, s: string): Option<IP> {
    var dot, colon, percent := First(s, '.'), First(s, ':'), First(s, '%');
    if dot < colon && dot < percent then
      match ReadIP4(s)
      case Some(b) => Some(IP4(b))
      case None => None
    else if colon < percent then
      match o.readIP6(s)
      case Some(b) => Some(IP6(b))
      case None => None
    else None
  }

  /** net.ParseIP */
  function ReadIP(o: Outside, s: string): Option<IP> {
    match ReadAddr(o, s)
    case Some(ip) => Some(Unmap(ip))
    case None => None
  }

  // ----- networks -----

  /** The network that the text of `c` names: IPv4-mapped ones are written as IPv4. */
  function Spoken(c: Cidr): Cidr {
    match c
    case Cidr4(_, _) => c
    case Cidr6(a, n) => if Mapped(a) then Cidr4(a[12..], if n > 96 then n - 96 else 0) else c
  }

  /** The network that setting the text of `c` puts in a table. */
  function Heard(c: Cidr): Cidr {
    Masked(Spoken(c))
  }

  /** net.IPNet.String */
  function WriteCidr(o: Outside, c: Cidr): string {
    match Spoken(c)
    case Cidr4(a, n) => WriteIP4(a) + "/" + Format(n, 10)
    case Cidr6(a, n) => o.writeIP6(a) + "/" + Format(n, 10)
  }

  /** net.ParseCIDR, keeping the host bits of the address. */
  function ReadCidr(o: Outside, s: string): Option<Cidr> {
    match Cut(s, '/')
    case None => None
    case Some((addr, mask)) =>
      match ReadAddr(o, addr)
      case None => None
      case Some(IP4(b)) =>
        var ones := ParseUint(mask, 10, 32);
        if ones.Some? then Some(Cidr4(b, ones.value)) else None
      case Some(IP6(b)) =>
        var ones := ParseUint(mask, 10, 128);
        if ones.Some? then Some(Cidr6(b, ones.value)) else None
  }

  // ----- endpoints -----

  function Itoa(n: int): string {
    if n < 0 then "-" + Format(-n, 10) else Format(n, 10)
  }

  function FormatHost(o: Outside, e: UDPAddr): string {
    WriteIP(o, e.ip) + if e.zone == "" then "" else "%" + e.zone
  }

  /** net.JoinHostPort, which brackets a host that has a colon. */
  function JoinHostPort(host: string, port: string): string {
    if Absent(host, ':') then host + ":" + port else "[" + host + "]:" + port
  }

  function FormatEndpoint(o: Outside, e: UDPAddr): string {
    JoinHostPort(FormatHost(o, e), Itoa(e.port))
  }

  /** net.SplitHostPort */
  function SplitHostPort(s: string): Option<(string, string)> {
    var i := AfterLast(s, ':');
    if i == 0 then None
    else if s[0] == '[' then
      var end := First(s, ']');
      if end + 1 != i - 1 || end == |s| || !Absent(s[1..], '[') || !Absent(s[end + 1..], ']') then None
      else Some((s[1..end], s[i..]))
    else
      var host := s[..i - 1];
      if !Absent(host, ':') || !Absent(s, '[') || !Absent(s, ']') then None else Some((host, s[i..]))
  }

  // ----- laws -----

  lemma {:induction false} Octets(b: byte)
    ensures Octet(Format(b, 10)) == Some(b) && AllPlain(Format(b, 10))
  {
    ParseFormat(b, 10, 255);
    FormatPlain(b, 10);
  }

  predicate IP4Text(s: string) {
    && (forall i :: 0 <= i < |s| ==> Plain(s[i]) || s[i] == '.')
    && !Absent(s, '.')
  }

  lemma {:induction false} JoinFour(a: string, b: string, c: string, d: string)
    ensures Join([a, b, c, d], ".") == a + "." + (b + "." + (c + "." + d))
  {
    assert [a, b, c, d][1..] == [b, c, d] && [b, c, d][1..] == [c, d] && [c, d][1..] == [d];
    assert Join([c, d], ".") == c + "." + d;
    assert Join([b, c, d], ".") == b + "." + (c + "." + d);
  }

  lemma {:induction false} IP4IsText(a: string, b: string, c: string, d: string)
    requires AllPlain(a) && AllPlain(b) && AllPlain(c) && AllPlain(d)
    ensures IP4Text(Join([a, b, c, d], "."))
    ensures AllAbsent([a, b, c, d], '.')
  {
    JoinFour(a, b, c, d);
    assert (a + "." + (b + "." + (c + "." + d)))[|a|] == '.';
  }

  lemma {:induction false} SplitFour(a: string, b: string, c: string, d: string)
    requires AllPlain(a) && AllPlain(b) && AllPlain(c) && AllPlain(d)
    ensures Split(Join([a, b, c, d], "."), '.') == [a, b, c, d]
  {
    IP4IsText(a, b, c, d);
    SplitJoin([a, b, c, d], '.');
  }

  lemma {:induction false} ReadFour(s: string, parts: seq<string>, b: Bytes4)
    requires |parts| == 4 && Split(s, '.') == parts
    requires Octet(parts[0]) == Some(b[0]) && Octet(parts[1]) == Some(b[1])
    requires Octet(parts[2]) == Some(b[2]) && Octet(parts[3]) == Some(b[3])
    ensures ReadIP4(s) == Some(b)
  {
    assert b == [b[0], b[1], b[2], b[3]];
  }

  lemma {:induction false} IP4RoundTrip(b: Bytes4)
    ensures ReadIP4(WriteIP4(b)) == Some(b) && IP4Text(WriteIP4(b))
  {
    Octets(b[0]);
    Octets(b[1]);
    Octets(b[2]);
    Octets(b[3]);
    var parts := [Format(b[0], 10), Format(b[1], 10), Format(b[2], 10), Format(b[3], 10)];
    IP4IsText(parts[0], parts[1], parts[2], parts[3]);
    SplitFour(parts[0], parts[1], parts[2], parts[3]);
    ReadFour(WriteIP4(b), parts, b);
  }

  lemma {:induction false} OctetExactly(s: string, n: nat)
    ensures Octet(s) == Some(n) <==> n <= 255 && s == Format(n, 10)
  {
    hide Format;
    ParseExactly(s, 10, 255, n);
    if Octet(s) == Some(n) {
      var z: nat :| Lower(s) == Zeros(z) + Format(n, 10);
      DigitsStay(s);
      FormatWhole(n, z);
      assert z == 0;
      assert Zeros(0) + Format(n, 10) == Format(n, 10);
    } else if n <= 255 && s == Format(n, 10) {
      Octets(n);
    }
  }

  lemma {:induction false} DigitsStay(s: string)
    requires Digits(s, 10)
    ensures Lower(s) == s
  {
  }

  lemma {:induction false} FormatWhole(n: nat, z: nat)
    ensures |Zeros(z) + Format(n, 10)| > z && (z > 0 ==> (Zeros(z) + Format(n, 10))[0] == '0')
  {
  }

  /** A text is read as an IPv4 address exactly when it is the text of that address. */
  lemma {:induction false} ReadIP4Exactly(s: string, b: Bytes4)
    ensures ReadIP4(s) == Some(b) <==> s == WriteIP4(b)
  {
    hide Octet, Format, Split;
    IP4RoundTrip(b);
    if ReadIP4(s) == Some(b) {
      var parts := Split(s, '.');
      OctetExactly(parts[0], b[0]);
      OctetExactly(parts[1], b[1]);
      OctetExactly(parts[2], b[2]);
      OctetExactly(parts[3], b[3]);
      JoinSplit(s, '.');
      assert parts == [parts[0], parts[1], parts[2], parts[3]];
    }
  }

  /** What every written address looks like. */
  predicate AddrText(s: string) {
    Token(s) && s != [] && Absent(s, '/') && Absent(s, '%') && Absent(s, ']') && Absent(s, '[')
  }

  lemma {:induction false} IP4AddrReads(o: Outside, b: Bytes4)
    ensures ReadAddr(o, WriteIP4(b)) == Some(IP4(b)) && AddrText(WriteIP4(b)) && Absent(WriteIP4(b), ':')
  {
    hide ReadIP4, WriteIP4;
    IP4RoundTrip(b);
  }

  lemma {:induction false} IP6AddrReads(o: Outside, b: Bytes16)
    requires LawfulIP6(o) && !Mapped(b)
    ensures ReadAddr(o, o.writeIP6(b)) == Some(IP6(b)) && AddrText(o.writeIP6(b)) && !Absent(o.writeIP6(b), ':')
  {
    hide ReadIP4, Mapped, IP6Readable;
    assert IP6Text(o.writeIP6(b));
  }

  lemma {:induction false} AddrRoundTrip(o: Outside, ip: IP)
    requires LawfulIP6(o)
    ensures ReadAddr(o, WriteIP(o, ip)) == Some(Unmap(ip)) && ReadIP(o, WriteIP(o, ip)) == Some(Unmap(ip))
    ensures AddrText(WriteIP(o, ip)) && (Absent(WriteIP(o, ip), ':') <==> Unmap(ip).IP4?)
  {
    hide ReadAddr, WriteIP4, AddrText, LawfulIP6;
    match Unmap(ip)
    case IP4(b) => IP4AddrReads(o, b);
    case IP6(b) => IP6AddrReads(o, b);
  }

  lemma {:induction false} CidrText(o: Outside, c: Cidr)
    ensures var s := Spoken(c); WriteCidr(o, c) == WriteIP(o, CidrIP(s)) + ['/'] + Format(CidrOnes(s), 10)
    ensures !(CidrIP(Spoken(c)).IP6? && Mapped(CidrIP(Spoken(c)).b6))
  {
  }

  /** The longest mask of a family. */
  function CidrBits(c: Cidr): nat {
    if c.Cidr4? then 32 else 128
  }

  lemma {:induction false} SpokenStays(c: Cidr)
    ensures Unmap(CidrIP(Spoken(c))) == CidrIP(Spoken(c))
  {
  }

  lemma {:induction false} PartsRead(o: Outside, s: string, addr: string, mask: string, c: Cidr)
    requires Cut(s, '/') == Some((addr, mask))
    requires ReadAddr(o, addr) == Some(CidrIP(c)) && ParseUint(mask, 10, CidrBits(c)) == Some(CidrOnes(c))
    ensures ReadCidr(o, s) == Some(c)
  {
    hide Cut, ReadAddr, ParseUint;
  }

  /** Reading the text of a network gives the network back, unless it is an IPv4-mapped one. */
  lemma {:induction false} CidrRoundTrip(o: Outside, c: Cidr)
    requires LawfulIP6(o)
    ensures ReadCidr(o, WriteCidr(o, c)) == Some(Spoken(c)) && Token(WriteCidr(o, c))
  {
    hide WriteIP, WriteCidr, Spoken, Format, ReadAddr, LawfulIP6, ReadCidr, ParseUint;
    var s := Spoken(c);
    var ip, ones := CidrIP(s), CidrOnes(s);
    CidrText(o, c);
    AddrRoundTrip(o, ip);
    SpokenStays(c);
    ParseFormat(ones, 10, CidrBits(s));
    FirstAfter(WriteIP(o, ip), '/', Format(ones, 10));
    assert Cut(WriteCidr(o, c), '/') == Some((WriteIP(o, ip), Format(ones, 10)));
    PartsRead(o, WriteCidr(o, c), WriteIP(o, ip), Format(ones, 10), s);
  }
}
