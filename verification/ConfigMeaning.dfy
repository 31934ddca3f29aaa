/**
 * What a wg(8) configuration file says, section by section: a field's last value counts,
 * and the AllowedIPs lines of a peer add up. The parser is proved against this.
 */
module ConfigMeaning {
  import opened Wrappers
  import opened WgTypes
  import opened Text
  import opened Base64
  import opened Addresses
  import opened Endpoints
  import opened ConfigLines

  datatype Section = Nowhere | InInterface | InPeer

  // ----- sections -----

  function SectionAfter(section: Section, line: Line): Section {
    match line
    case InterfaceHeader => InInterface
    case PeerHeader => InPeer
    case _ => section
  }

  /** The section the next line falls in. */
  function SectionOf(ls: seq<Line>): Section
  {
    if ls == [] then Nowhere else SectionAfter(SectionOf(ls[..|ls| - 1]), ls[|ls| - 1])
  }

  /** Blank lines and headers say nothing about a section. */
  predicate Says(line: Line) {
    line.FieldLine? || line.NameLine?
  }

  /** The lines of all [Interface] sections. */
  function InterfaceLines(ls: seq<Line>): seq<Line>
  {
    if ls == [] then []
    else
      var init, line := ls[..|ls| - 1], ls[|ls| - 1];
      InterfaceLines(init) + if SectionOf(init) == InInterface && Says(line) then [line] else []
  }

  /** The lines of each [Peer] section, in order. */
  function PeerBlocks(ls: seq<Line>): (blocks: seq<seq<Line>>)
    ensures SectionOf(ls) == InPeer ==> blocks != []
  {
    if ls == [] then []
    else
      var init, line := ls[..|ls| - 1], ls[|ls| - 1];
      var blocks := PeerBlocks(init);
      if line == PeerHeader then blocks + [[]]
      else if SectionOf(init) == InPeer && Says(line) then AddLine(blocks, line)
      else blocks
  }

  function AddLine(blocks: seq<seq<Line>>, line: Line): (r: seq<seq<Line>>)
    requires blocks != []
    ensures |r| == |blocks|
  {
    blocks[..|blocks| - 1] + [blocks[|blocks| - 1] + [line]]
  }

  // ----- fields of one section -----

  function ValueOf(line: Line, field: Field): Option<string> {
    if line.FieldLine? && line.field == field then Some(line.value) else None
  }

  function LastValue(ls: seq<Line>, field: Field): Option<string>
  {
    if ls == [] then None
    else
      var last := ValueOf(ls[|ls| - 1], field);
      if last.Some? then last else LastValue(ls[..|ls| - 1], field)
  }

  function LastName(ls: seq<Line>): Option<string>
  {
    if ls == [] then None
    else if ls[|ls| - 1].NameLine? then Some(ls[|ls| - 1].text)
    else LastName(ls[..|ls| - 1])
  }

  function OperationsOf(o: Outside, line: Line): seq<AllowedIPConfig> {
    match ValueOf(line, AllowedIPs)
    case Some(v) => ReadAllowedIPs(o, v).GetOr([])
    case None => []
  }

  function AllOperations(o: Outside, ls: seq<Line>): seq<AllowedIPConfig>
  {
    if ls == [] then [] else AllOperations(o, ls[..|ls| - 1]) + OperationsOf(o, ls[|ls| - 1])
  }

  function KeyOf(ls: seq<Line>, field: Field): Option<Key> {
    match LastValue(ls, field)
    case Some(v) => ReadCanonicalKey(v)
    case None => None
  }

  function KeepaliveOf(ls: seq<Line>): Option<int> {
    match LastValue(ls, PersistentKeepalive)
    case Some(v) => Some(ReadKeepalive(v).GetOr(0) * SECOND)
    case None => None
  }

  function EndpointOf(o: Outside, ls: seq<Line>): Option<UDPAddr> {
    match LastValue(ls, Endpoint)
    case Some(v) => ReadEndpoint(o, v)
    case None => None
  }

  function NameOf(o: Outside, ls: seq<Line>): Option<string> {
    match LastName(ls)
    case Some(t) => ReadPeerName(o, t)
    case None => None
  }

  predicate Replaces(ls: seq<Line>) {
    var last := LastValue(ls, AllowedIPs);
    last.Some? ==> !Incremental(last.value)
  }

  /** The peer entry a [Peer] section stands for. */
  function PeerOf(o: Outside, ls: seq<Line>): PeerConfig {
    PeerConfig(NameOf(o, ls), KeyOf(ls, PublicKey).GetOr(ZeroKey()), false, false,
               KeyOf(ls, PresharedKey), EndpointOf(o, ls), KeepaliveOf(ls),
               Replaces(ls), [], AllOperations(o, ls))
  }

  function PeersOf(o: Outside, blocks: seq<seq<Line>>): (r: seq<PeerConfig>)
    ensures |r| == |blocks|
  {
    if blocks == [] then []
    else PeersOf(o, blocks[..|blocks| - 1]) + [PeerOf(o, blocks[|blocks| - 1])]
  }

  // ----- the whole file -----

  function NumberOf(read: string -> Option<nat>, ls: seq<Line>, field: Field): Option<int> {
    match LastValue(ls, field)
    case Some(v) => Some(read(v).GetOr(0))
    case None => None
  }

  /** A field that is not set keeps its default: zero when setting, nothing when adding. */
  function OrDefault<T>(value: Option<T>, zero: T, append: bool): Option<T> {
    if value.Some? || append then value else Some(zero)
  }

  function ConfigFrom(fields: seq<Line>, peers: seq<PeerConfig>, append: bool): Config {
    Config(OrDefault(KeyOf(fields, PrivateKey), ZeroKey(), append),
           OrDefault(NumberOf(ReadPort, fields, ListenPort), 0, append),
           OrDefault(NumberOf(ReadMark, fields, FwMark), 0, append),
           !append, peers)
  }

  function Meaning(o: Outside, ls: seq<Line>, append: bool): Config {
    ConfigFrom(InterfaceLines(ls), PeersOf(o, PeerBlocks(ls)), append)
  }

  // ----- what is accepted -----

  predicate InterfaceFieldOk(field: Field, value: string) {
    match field
    case PrivateKey => ReadCanonicalKey(value).Some?
    case ListenPort => ReadPort(value).Some?
    case FwMark => ReadMark(value).Some?
    case _ => false
  }

  predicate PeerFieldOk(o: Outside, field: Field, value: string) {
    match field
    case PublicKey => ReadCanonicalKey(value).Some?
    case PresharedKey => ReadCanonicalKey(value).Some?
    case Endpoint => ReadEndpoint(o, value).Some?
    case AllowedIPs => ReadAllowedIPs(o, value).Some?
    case PersistentKeepalive => ReadKeepalive(value).Some?
    case _ => false
  }

  /** Whether the current section is a peer that has its name already. */
  predicate Named(ls: seq<Line>) {
    SectionOf(ls) == InPeer && LastName(PeerBlocks(ls)[|PeerBlocks(ls)| - 1]).Some?
  }

  /** Whether `line` may follow `ls`. */
  predicate LineOk(o: Outside, ls: seq<Line>, line: Line) {
    match line
    case BlankLine => true
    case InterfaceHeader => true
    case PeerHeader => true
    case BadLine => false
    case NameLine(text) => SectionOf(ls) == InPeer && !Named(ls) && ReadPeerName(o, text).Some?
    case FieldLine(field, value) =>
      match SectionOf(ls)
      case Nowhere => false
      case InInterface => InterfaceFieldOk(field, value)
      case InPeer => PeerFieldOk(o, field, value)
  }

  /** The number of the first line that may not stand where it does. */
  function FirstBad(o: Outside, ls: seq<Line>): (n: Option<nat>)
    ensures n.Some? ==> 0 < n.value <= |ls|
  {
    if ls == [] then None
    else
      var init := ls[..|ls| - 1];
      var earlier := FirstBad(o, init);
      if earlier.Some? then earlier
      else if LineOk(o, init, ls[|ls| - 1]) then None
      else Some(|ls|)
  }

  function FirstKeyless(blocks: seq<seq<Line>>): (n: Option<nat>)
    ensures n.Some? ==> 0 < n.value <= |blocks|
  {
    if blocks == [] then None
    else
      var earlier := FirstKeyless(blocks[..|blocks| - 1]);
      if earlier.Some? then earlier
      else if LastValue(blocks[|blocks| - 1], PublicKey).Some? then None
      else Some(|blocks|)
  }

  datatype ParseError = BadLineAt(line: nat) | LineTooLong | MissingPublicKey(peer: nat)

  /** bufio.Scanner gives up on a line that does not fit its buffer with its newline. */
  const MAX_LINE := 1024 * 1024

  /** How many lines the scanner delivers. */
  function Scanned(raw: seq<string>): (n: nat)
    ensures n <= |raw|
    ensures forall i :: 0 <= i < n ==> ByteLength(raw[i]) < MAX_LINE
    ensures n < |raw| ==> ByteLength(raw[n]) >= MAX_LINE
  {
    if raw == [] || ByteLength(raw[0]) >= MAX_LINE then 0 else 1 + Scanned(raw[1..])
  }

  function Classified(raw: seq<string>): (ls: seq<Line>)
    ensures |ls| == |raw|
  {
    if raw == [] then [] else Classified(raw[..|raw| - 1]) + [Classify(DropCR(raw[|raw| - 1]))]
  }

  function Parsed(o: Outside, text: string, append: bool): Result<Config, ParseError> {
    var raw := Lines(text);
    var ls := Classified(raw[..Scanned(raw)]);
    var bad, keyless := FirstBad(o, ls), FirstKeyless(PeerBlocks(ls));
    if bad.Some? then Err(BadLineAt(bad.value))
    else if Scanned(raw) < |raw| then Err(LineTooLong)
    else if keyless.Some? then Err(MissingPublicKey(keyless.value))
    else Ok(Meaning(o, ls, append))
  }
}
