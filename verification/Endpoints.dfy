/** Resolving the endpoint of a peer: resolveEndpoint of internal/wgconfig/parse.go. */
module Endpoints {
  import opened Wrappers
  import opened WgTypes
  import opened Text
  import opened Numbers
  import opened Addresses

  const MAX_BACKOFF := 20 * SECOND
  const UNLIMITED := -1

  function MinDuration(a: int, b: int): int {
    if a < b then a else b
  }

  /** The retry count of WG_ENDPOINT_RESOLUTION_RETRIES. */
  function Retries(o: Outside): Option<int> {
    match o.retries
    case None => Some(15)
    case Some(v) =>
      if v == "infinity" then Some(UNLIMITED)
      else
        match ParseUint(if HasPrefix(v, "+") then v[1..] else v, 10, 0x7FFF_FFFF)
        case Some(n) => Some(n)
        case None => None
  }

  function SplitEndpoint(value: string): Option<(string, string)> {
    if HasPrefix(value, "[") then SplitHostPort(value)
    else
      var i := AfterLast(value, ':');
      if i == 0 then None else Some((value[..i - 1], value[i..]))
  }

  /** An address literal, with its zone if it has one. */
  function Literal(o: Outside, host: string): Option<(IP, string)> {
    var i := AfterLast(host, '%');
    var zoned := if i > 0 then ReadIP(o, host[..i - 1]) else None;
    if zoned.Some? then Some((zoned.value, host[i..]))
    else
      match ReadIP(o, host)
      case Some(ip) => Some((ip, ""))
      case None => None
  }

  /** The first address of `host`, if it settles before the retries run out. */
  function LookedUp(o: Outside, host: string, retries: int): Option<IP> {
    if retries != UNLIMITED && o.failures(host) > retries then None
    else
      match o.settled(host)
      case Found(ips) => if ips == [] then None else Some(ips[0])
      case NotFound => None
  }

  function ReadEndpoint(o: Outside, value: string): Option<UDPAddr> {
    var retries, parts := Retries(o), SplitEndpoint(value);
    if retries.None? || value == "" || parts.None? then None
    else
      var (host, portText) := parts.value;
      var port := o.lookupPort(portText);
      if port.None? then None
      else
        match Literal(o, host)
        case Some((ip, zone)) => Some(UDPAddr(ip, port.value, zone))
        case None =>
          match LookedUp(o, host, retries.value)
          case Some(ip) => Some(UDPAddr(ip, port.value, ""))
          case None => None
  }

  // ----- the retry loop -----

  /** The pause before retry `i`. */
  function Backoff(i: nat): int {
    if i == 0 then SECOND else MinDuration(MAX_BACKOFF, Backoff(i - 1) * 6 / 5)
  }

  function Backoffs(n: nat): (r: seq<int>)
    ensures |r| == n
  {
    if n == 0 then [] else Backoffs(n - 1) + [Backoff(n - 1)]
  }

  /** The host whose name must be looked up, if there is one. */
  function Unknown(o: Outside, value: string): Option<string> {
    var parts := SplitEndpoint(value);
    if Retries(o).None? || value == "" || parts.None? || o.lookupPort(parts.value.1).None?
       || Literal(o, parts.value.0).Some? then None
    else Some(parts.value.0)
  }

  /** How often resolving `host` pauses: once for each temporary failure it may retry. */
  function Pauses(o: Outside, host: string, retries: int): int {
    if retries == UNLIMITED then o.failures(host) else MinDuration(o.failures(host), retries)
  }

  method LookUp(o: Outside, host: string, limit: int) returns (r: Option<IP>, lookups: nat, sleeps: seq<int>)
    requires limit >= UNLIMITED
    ensures r == LookedUp(o, host, limit)
    ensures 0 <= Pauses(o, host, limit) && sleeps == Backoffs(Pauses(o, host, limit))
    ensures lookups == |sleeps| + 1
  {
    var retries := limit;
    var backoff := SECOND;
    lookups, sleeps := 0, [];
    while true
      invariant lookups == |sleeps| <= o.failures(host)
      invariant sleeps == Backoffs(|sleeps|) && backoff == Backoff(|sleeps|)
      invariant retries == if limit == UNLIMITED then UNLIMITED else limit - |sleeps|
      invariant retries >= UNLIMITED && (retries == UNLIMITED ==> limit == UNLIMITED)
      decreases o.failures(host) - |sleeps|
    {
      var temporary := lookups < o.failures(host);
      lookups := lookups + 1;
      if !temporary {
        match o.settled(host)
        case Found(ips) =>
          return if ips == [] then None else Some(ips[0]), lookups, sleeps;
        case NotFound =>
          return None, lookups, sleeps;
      }
      if retries == 0 {
        return None, lookups, sleeps;
      }
      if retries > 0 {
        retries := retries - 1;
      }
      sleeps := sleeps + [backoff];
      backoff := MinDuration(MAX_BACKOFF, backoff * 6 / 5);
    }
  }

  method ResolveEndpoint(o: Outside, value: string)
    returns (r: Option<UDPAddr>, lookups: nat, sleeps: seq<int>)
    ensures r == ReadEndpoint(o, value)
    ensures Unknown(o, value).None? ==> lookups == 0 && sleeps == []
    ensures Unknown(o, value).Some? ==>
              && 0 <= Pauses(o, Unknown(o, value).value, Retries(o).value)
              && sleeps == Backoffs(Pauses(o, Unknown(o, value).value, Retries(o).value))
              && lookups == |sleeps| + 1
  {
    r, lookups, sleeps := None, 0, [];
    var retries := Retries(o);
    if retries.None? || value == "" {
      return;
    }
    var parts := SplitEndpoint(value);
    if parts.None? {
      return;
    }
    var (host, portText) := parts.value;
    var port := o.lookupPort(portText);
    if port.None? {
      return;
    }
    var literal := Literal(o, host);
    if literal.Some? {
      return Some(UDPAddr(literal.value.0, port.value, literal.value.1)), 0, [];
    }
    var ip;
    ip, lookups, sleeps := LookUp(o, host, retries.value);
    if ip.Some? {
      r := Some(UDPAddr(ip.value, port.value, ""));
    }
  }

  /** Pauses start at a second, never shrink and never exceed twenty seconds. */
  lemma {:induction false} BackoffBounds(i: nat)
    ensures SECOND <= Backoff(i) <= Backoff(i + 1) <= MAX_BACKOFF
  {
    if i == 0 {
    } else {
      BackoffBounds(i - 1);
    }
  }

  lemma {:induction false} BackoffsAt(n: nat, i: nat)
    requires i < n
    ensures Backoffs(n)[i] == Backoff(i)
  {
    if i < n - 1 {
      BackoffsAt(n - 1, i);
    }
  }

  /** With a finite retry count, at most that many pauses; each no longer than the next. */
  lemma {:induction false} PausesBounded(o: Outside, value: string)
    requires Unknown(o, value).Some? && Retries(o).value != UNLIMITED
    ensures var n := Pauses(o, Unknown(o, value).value, Retries(o).value);
            && 0 <= n <= Retries(o).value
            && Rising(Backoffs(n)) && (n > 0 ==> Backoffs(n)[0] == SECOND)
            && forall i :: 0 <= i < n ==> SECOND <= Backoffs(n)[i] <= MAX_BACKOFF
  {
    var n := Pauses(o, Unknown(o, value).value, Retries(o).value);
    forall i | 0 <= i < n
      ensures Backoffs(n)[i] == Backoff(i) && SECOND <= Backoff(i) <= MAX_BACKOFF
    {
      BackoffsAt(n, i);
      BackoffBounds(i);
    }
    forall i, j | 0 <= i <= j < n
      ensures Backoffs(n)[i] <= Backoffs(n)[j]
    {
      BackoffMonotone(i, j);
    }
  }

  predicate Rising(s: seq<int>) {
    forall i, j :: 0 <= i <= j < |s| ==> s[i] <= s[j]
  }

  lemma {:induction false} BackoffMonotone(i: nat, j: nat)
    requires i <= j
    ensures Backoff(i) <= Backoff(j)
    decreases j - i
  {
    if i < j {
      BackoffBounds(i);
      BackoffMonotone(i + 1, j);
    }
  }

  /** The pauses below the limit, in nanoseconds. */
  const PAUSES := [
    1_000_000_000, 1_200_000_000, 1_440_000_000, 1_728_000_000, 2_073_600_000, 2_488_320_000, 2_985_984_000,
    3_583_180_800, 4_299_816_960, 5_159_780_352, 6_191_736_422, 7_430_083_706, 8_916_100_447, 10_699_320_536,
    12_839_184_643, 15_407_021_571, 18_488_425_885]

  /** The pause before retry `i`, as a number. */
  function PauseOf(i: nat): int {
    if i < |PAUSES| then PAUSES[i] else 20_000_000_000
  }

  lemma {:induction false} PauseGrows(i: nat)
    ensures PauseOf(i + 1) == MinDuration(20_000_000_000, PauseOf(i) * 6 / 5)
  {
  }

  /** The pauses grow by a fifth from one second; from the eighteenth on they are twenty seconds. */
  lemma {:induction false} PausesAre(i: nat)
    ensures Backoff(i) == PauseOf(i)
  {
    hide PauseOf, MinDuration;
    if i == 0 {
      FirstPause();
    } else {
      PausesAre(i - 1);
      PauseGrows(i - 1);
    }
  }

  lemma {:induction false} FirstPause()
    ensures PauseOf(0) == 1_000_000_000
  {
  }

  /** Fifteen retries unless the environment says otherwise. */
  lemma {:induction false} RetriesRead(o: Outside, n: nat)
    ensures o.retries == None ==> Retries(o) == Some(15)
    ensures o.retries == Some("infinity") ==> Retries(o) == Some(UNLIMITED)
    ensures o.retries == Some(Format(n, 10)) || o.retries == Some("+" + Format(n, 10)) ==>
              Retries(o) == if n <= 2147483647 then Some(n) else None
  {
    hide Format, ParseUint;
    ParseFormat(n, 10, 0x7FFF_FFFF);
    FormatPlain(n, 10);
    var s, t := Format(n, 10), "+" + Format(n, 10);
    assert Plain(s[0]) && t[1..] == s && t[..1] == "+";
    assert s != "infinity" && t != "infinity";
  }

  /** A name is looked up for its first address, and its temporary failures are borne up to the retry count. */
  lemma {:induction false} NameResolves(o: Outside, host: string, port: nat)
    requires LawfulPorts(o) && Retries(o).Some? && Literal(o, host).None?
    requires port <= 65535 && (host != "" ==> host[0] != '[')
    ensures var settles := o.retries == Some("infinity") || o.failures(host) <= Retries(o).value;
            ReadEndpoint(o, host + ":" + Format(port, 10)) ==
            if settles && o.settled(host).Found? && o.settled(host).ips != []
            then Some(UDPAddr(o.settled(host).ips[0], port, "")) else None
  {
    hide Format, Literal, SplitHostPort, AfterLast;
    var text := Format(port, 10);
    PortText(port);
    LastBefore(host, ':', text);
    assert host + [':'] + text == host + ":" + text;
  }

  // ----- literals -----

  /** A zone that survives being written in a file. */
  predicate ZoneSafe(zone: string) {
    Token(zone) && Absent(zone, '%') && Absent(zone, '[') && Absent(zone, ']')
  }

  /** Where the brackets and colons of "[host]:port" are. */
  lemma {:induction false} Bracketed(host: string, port: string)
    requires Absent(host, ']') && Absent(port, ':')
    ensures var s := "[" + host + "]:" + port;
            && AfterLast(s, ':') == |host| + 3 && First(s, ']') == |host| + 1
            && s[1..|host| + 1] == host && s[|host| + 3..] == port
            && s[1..] == host + "]:" + port && s[|host| + 2..] == ":" + port
  {
    var s := "[" + host + "]:" + port;
    var front := ['['] + host + [']'];
    assert s == front + [':'] + port;
    LastBefore(front, ':', port);
    assert s == (['['] + host) + [']'] + ([':'] + port);
    FirstAfter(['['] + host, ']', [':'] + port);
  }

  lemma {:induction false} SplitBracketed(host: string, port: string)
    requires Absent(host, '[') && Absent(host, ']')
    requires Absent(port, ':') && Absent(port, '[') && Absent(port, ']')
    ensures SplitHostPort("[" + host + "]:" + port) == Some((host, port))
  {
    hide First, AfterLast;
    var s := "[" + host + "]:" + port;
    Bracketed(host, port);
    NoBrackets(host, port);
    assert s[0] == '[';
  }

  lemma {:induction false} NoBrackets(host: string, port: string)
    requires Absent(host, '[') && Absent(port, '[') && Absent(port, ']')
    ensures Absent(host + "]:" + port, '[') && Absent(":" + port, ']')
  {
  }

  lemma {:induction false} SplitJoined(host: string, port: string)
    requires host != [] && Absent(host, '[') && Absent(host, ']')
    requires Absent(port, ':') && Absent(port, '[') && Absent(port, ']')
    ensures SplitEndpoint(JoinHostPort(host, port)) == Some((host, port))
  {
    hide SplitHostPort;
    if Absent(host, ':') {
      var s := host + [':'] + port;
      assert s == JoinHostPort(host, port) && s[0] == host[0];
      LastBefore(host, ':', port);
    } else {
      SplitBracketed(host, port);
    }
  }

  lemma {:induction false} HostText(o: Outside, e: UDPAddr)
    requires LawfulIP6(o) && ZoneSafe(e.zone)
    ensures var host := FormatHost(o, e);
            host != [] && Token(host) && Absent(host, '[') && Absent(host, ']')
  {
    AddrRoundTrip(o, e.ip);
  }

  lemma {:induction false} LiteralHost(o: Outside, e: UDPAddr)
    requires LawfulIP6(o) && ZoneSafe(e.zone)
    ensures Literal(o, FormatHost(o, e)) == Some((Unmap(e.ip), e.zone))
  {
    hide ReadIP, WriteIP, Unmap, LawfulIP6;
    var ip := WriteIP(o, e.ip);
    AddrRoundTrip(o, e.ip);
    if e.zone == "" {
      assert ip + "" == ip;
    } else {
      assert FormatHost(o, e) == ip + ['%'] + e.zone;
      LastBefore(ip, '%', e.zone);
    }
  }

  lemma {:induction false} PortText(n: nat)
    ensures var s := Format(n, 10); Token(s) && Absent(s, ':') && Absent(s, '[') && Absent(s, ']')
  {
    FormatPlain(n, 10);
  }

  lemma {:induction false} EndpointText(o: Outside, e: UDPAddr)
    requires LawfulIP6(o) && ZoneSafe(e.zone) && 0 <= e.port
    ensures Token(FormatEndpoint(o, e)) && FormatEndpoint(o, e) != []
    ensures SplitEndpoint(FormatEndpoint(o, e)) == Some((FormatHost(o, e), Format(e.port, 10)))
  {
    var host, port := FormatHost(o, e), Format(e.port, 10);
    HostText(o, e);
    PortText(e.port);
    SplitJoined(host, port);
    JoinedText(host, port);
  }

  lemma {:induction false} JoinedText(host: string, port: string)
    requires Token(host) && Token(port)
    ensures Token(JoinHostPort(host, port)) && JoinHostPort(host, port) != []
  {
  }

  lemma {:induction false} ReadLiteral(o: Outside, value: string, host: string, portText: string)
    requires Retries(o).Some? && value != "" && SplitEndpoint(value) == Some((host, portText))
    requires o.lookupPort(portText).Some? && Literal(o, host).Some?
    ensures Unknown(o, value).None?
    ensures var (ip, zone) := Literal(o, host).value;
            ReadEndpoint(o, value) == Some(UDPAddr(ip, o.lookupPort(portText).value, zone))
  {
  }

  /** Reading a written endpoint gives it back, without any lookup. */
  lemma {:induction false} EndpointRoundTrip(o: Outside, e: UDPAddr)
    requires LawfulIP6(o) && LawfulPorts(o) && Retries(o).Some? && ZoneSafe(e.zone) && 0 <= e.port <= 65535
    ensures ReadEndpoint(o, FormatEndpoint(o, e)) == Some(UDPAddr(Unmap(e.ip), e.port, e.zone))
    ensures Unknown(o, FormatEndpoint(o, e)).None? && Token(FormatEndpoint(o, e))
  {
    EndpointText(o, e);
    LiteralHost(o, e);
    ReadLiteral(o, FormatEndpoint(o, e), FormatHost(o, e), Format(e.port, 10));
  }
}
