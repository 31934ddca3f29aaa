/** One line of a wg(8) configuration file, and the values its fields take: internal/wgconfig/parse.go. */
module ConfigLines {
  import opened Wrappers
  import opened WgTypes
  import opened Seqs
  import opened Text
  import opened Numbers
  import opened Addresses

  datatype Field =
    | PrivateKey | ListenPort | FwMark
    | PublicKey | PresharedKey | Endpoint | AllowedIPs | PersistentKeepalive
    | OtherField

  datatype Line =
    | BlankLine
    | NameLine(text: string)
    | InterfaceHeader
    | PeerHeader
    | FieldLine(field: Field, value: string)
    | BadLine

  // ----- classification -----

  function FieldOf(key: string): Field {
    if key == "privatekey" then PrivateKey
    else if key == "listenport" then ListenPort
    else if key == "fwmark" then FwMark
    else if key == "publickey" then PublicKey
    else if key == "presharedkey" then PresharedKey
    else if key == "endpoint" then Endpoint
    else if key == "allowedips" then AllowedIPs
    else if key == "persistentkeepalive" then PersistentKeepalive
    else OtherField
  }

  function NamePrefix(): string {
    "# wgctrl-peer-name"
  }

  /** peerNameComment: the JSON text of a name hidden in a comment. */
  function NameComment(raw: string): Option<string> {
    var line := Trim(raw);
    if !HasPrefix(line, NamePrefix()) then None
    else
      var rest := Trim(line[|NamePrefix()|..]);
      if HasPrefix(rest, "=") then Some(Trim(rest[1..])) else None
  }

  function SectionLine(name: string): Line {
    if name == "interface" then InterfaceHeader else if name == "peer" then PeerHeader else BadLine
  }

  function Classify(raw: string): Line {
    var name := NameComment(raw);
    var line := Clean(raw);
    if name.Some? then NameLine(name.value)
    else if line == "" then BlankLine
    else if line[0] == '[' && line[|line| - 1] == ']' then SectionLine(Lower(line[1..|line| - 1]))
    else
      match Cut(line, '=')
      case Some((key, value)) => FieldLine(FieldOf(Lower(key)), value)
      case None => BadLine
  }

  // ----- values -----

  predicate IsOff(value: string) {
    Lower(value) == "off"
  }

  function ReadPort(value: string): Option<nat> {
    ParseUint(value, 10, 0xFFFF)
  }

  function ReadKeepalive(value: string): Option<nat> {
    if IsOff(value) then Some(0) else ParseUint(value, 10, 0xFFFF)
  }

  function ReadMark(value: string): Option<nat> {
    if IsOff(value) then Some(0)
    else if HasPrefix(value, "0x") then ParseUint(value[2..], 16, 0xFFFF_FFFF)
    else ParseUint(value, 10, 0xFFFF_FFFF)
  }

  /** validatePeerName */
  predicate ValidName(name: string) {
    ByteLength(name) <= 255 && Absent(name, '\0') && Absent(name, '\r') && Absent(name, '\n')
  }

  function ReadPeerName(o: Outside, text: string): Option<string> {
    match o.readName(text)
    case Some(name) => if ValidName(name) then Some(name) else None
    case None => None
  }

  // ----- allowed IPs -----

  predicate Signed(part: string) {
    part != "" && (part[0] == '+' || part[0] == '-')
  }

  /** A network, or a lone address standing for the network of that address only. */
  function ReadNet(o: Outside, part: string): Option<Cidr> {
    if !Absent(part, '/') then ReadCidr(o, part)
    else
      match ReadIP(o, part)
      case Some(IP4(b)) => Some(Cidr4(b, 32))
      case Some(IP6(b)) => Some(Cidr6(b, 128))
      case None => None
  }

  function ReadOperation(o: Outside, part: string): Option<AllowedIPConfig> {
    if part == "" then None
    else
      var operation :=
        if part[0] == '+' then AllowedIPAdd else if part[0] == '-' then AllowedIPRemove else AllowedIPSet;
      match ReadNet(o, if Signed(part) then part[1..] else part)
      case Some(net) => Some(AllowedIPConfig(net, operation))
      case None => None
  }

  function ReadOperations(o: Outside, parts: seq<string>): Option<seq<AllowedIPConfig>>
  {
    if parts == [] then Some([])
    else
      var init, op := ReadOperations(o, parts[..|parts| - 1]), ReadOperation(o, Trim(parts[|parts| - 1]));
      if init.None? || op.None? then None else Some(init.value + [op.value])
  }

  function Parts(value: string): seq<string> {
    if value == "" then [] else Split(value, ',')
  }

  function ReadAllowedIPs(o: Outside, value: string): Option<seq<AllowedIPConfig>> {
    ReadOperations(o, Parts(value))
  }

  /** Some entry adds or removes rather than sets. */
  predicate Incremental(value: string) {
    SomeSigned(Parts(value))
  }

  predicate SomeSigned(parts: seq<string>) {
    exists i :: 0 <= i < |parts| && Signed(Trim(parts[i]))
  }

  lemma {:induction false} OnePartBad(o: Outside, parts: seq<string>, i: nat)
    requires i < |parts| && ReadOperation(o, Trim(parts[i])).None?
    ensures ReadOperations(o, parts).None?
    decreases |parts|
  {
    hide ReadOperation, Trim;
    if i == |parts| - 1 {
    } else {
      OnePartBad(o, parts[..|parts| - 1], i);
    }
  }

  method ParseAllowedIPs(o: Outside, value: string)
    returns (ops: Option<seq<AllowedIPConfig>>, incremental: bool)
    ensures ops == ReadAllowedIPs(o, value)
    ensures ops.Some? ==> incremental == Incremental(value)
  {
    incremental := false;
    if value == "" {
      return Some([]), false;
    }
    var parts := Split(value, ',');
    var done := [];
    for i := 0 to |parts|
      invariant ReadOperations(o, parts[..i]) == Some(done)
      invariant incremental == SomeSigned(parts[..i])
    {
      Snoc(parts, i);
      var part := Trim(parts[i]);
      if part == "" {
        OnePartBad(o, parts, i);
        return None, incremental;
      }
      var operation := AllowedIPSet;
      if part[0] == '+' || part[0] == '-' {
        incremental := true;
        operation := if part[0] == '+' then AllowedIPAdd else AllowedIPRemove;
        part := part[1..];
      }
      var net := ReadNet(o, part);
      if net.None? {
        OnePartBad(o, parts, i);
        return None, incremental;
      }
      done := done + [AllowedIPConfig(net.value, operation)];
    }
    Whole(parts);
    ops := Some(done);
  }
}
