/** The text of a shared gist: the nodes it lists, read and written by cmd/wg/syncgitee_linux.go. */
module NodeText {
  import opened Wrappers
  import opened WgTypes
  import opened Seqs
  import opened Text
  import opened Numbers
  import opened Base64
  import opened Addresses
  import opened UserParse
  import opened ConfigText
  import opened Nodes

  // ----- reading -----

  datatype NodeError = NoPublicKey | WrongPrivateKey | OutsideNode | NoField | BadField

  datatype NodeFailure = AtLine(line: nat, error: NodeError) | AtEnd(error: NodeError) | LongLine

  /** The nodes read so far, the node being read, and whether it has its public key. */
  datatype Draft = Draft(nodes: seq<Node>, node: Option<Node>, hasPublicKey: bool)

  datatype NodeField =
    | NameField | PublicKeyField | PrivateKeyField | PresharedKeyField | NetsField | EndpointField | KeepaliveField
    | NotAField

  const NEW_NODE := Node("", ZeroKey(), None, ZeroKey(), [], None, 0)

  const NO_NODES := Draft([], None, false)

  function FieldNamed(key: string): NodeField {
    if key == "Name" then NameField
    else if key == "PublicKey" then PublicKeyField
    else if key == "PrivateKey" then PrivateKeyField
    else if key == "PresharedKey" then PresharedKeyField
    else if key == "AllowedIPs" then NetsField
    else if key == "Endpoint" then EndpointField
    else if key == "PersistentKeepalive" then KeepaliveField
    else NotAField
  }

  /** The items of an AllowedIPs line. */
  function ReadNets(o: Outside, items: seq<string>): Option<seq<Cidr>>
  {
    if items == [] then Some([])
    else
      var init, net := ReadNets(o, items[..|items| - 1]), ReadCidr(o, Trim(items[|items| - 1]));
      if init.None? || net.None? then None else Some(init.value + [net.value])
  }

  function WithNet(n: Node, nets: seq<Cidr>): Node {
    n.(allowedIPs := n.allowedIPs + nets)
  }

  /** A node with one more field line, if the value is one for that field. */
  function WithField(o: Outside, n: Node, field: NodeField, value: string): Option<Node> {
    match field
    case NameField => Some(n.(name := value))
    case PublicKeyField =>
      var k := ReadKey(value);
      if k.Some? then Some(n.(publicKey := k.value)) else None
    case PrivateKeyField =>
      var k := ReadKey(value);
      if k.Some? then Some(n.(privateKey := k)) else None
    case PresharedKeyField =>
      var k := ReadKey(value);
      if k.Some? then Some(n.(presharedKey := k.value)) else None
    case NetsField =>
      var nets := ReadNets(o, Split(value, ','));
      if nets.Some? then Some(WithNet(n, nets.value)) else None
    case EndpointField =>
      var e := ReadUDPAddr(o, value);
      if e.Some? then Some(n.(endpoint := e)) else None
    case KeepaliveField =>
      var seconds := ParseUint(value, 10, 65535);
      if seconds.Some? then Some(n.(keepalive := seconds.value * SECOND)) else None
    case NotAField => None
  }

  /** The finish function: the nodes with the one being read, which needs its keys. */
  function Ended(publicKey: Key -> Key, d: Draft): Result<seq<Node>, NodeError> {
    if d.node.None? then Ok(d.nodes)
    else if !d.hasPublicKey then Err(NoPublicKey)
    else if !KeysMatch(publicKey, d.node.value) then Err(WrongPrivateKey)
    else Ok(d.nodes + [d.node.value])
  }

  predicate KeysMatch(publicKey: Key -> Key, n: Node) {
    n.privateKey.Some? ==> publicKey(n.privateKey.value) == n.publicKey
  }

  /** What a trimmed line says. */
  datatype NodeLine = Ignored | NodeStart | FieldLine(field: NodeField, value: string) | Garbage

  function SaysOf(line: string): NodeLine {
    if line == "" || line[0] == '#' then Ignored
    else if line == "[Peer]" then NodeStart
    else
      match Cut(line, '=')
      case None => Garbage
      case Some((key, value)) => FieldLine(FieldNamed(Trim(key)), Trim(value))
  }

  /** Whether a node has its public key after one more field. */
  predicate HasKey(known: bool, field: NodeField) {
    known || field == PublicKeyField
  }

  function Apply(o: Outside, publicKey: Key -> Key, d: Draft, line: NodeLine): Result<Draft, NodeError> {
    match line
    case Ignored => Ok(d)
    case NodeStart =>
      (match Ended(publicKey, d)
       case Ok(nodes) => Ok(Draft(nodes, Some(NEW_NODE), false))
       case Err(e) => Err(e))
    case Garbage => Err(if d.node.None? then OutsideNode else NoField)
    case FieldLine(field, value) =>
      if d.node.None? then Err(OutsideNode)
      else
        match WithField(o, d.node.value, field, value)
        case Some(n) => Ok(Draft(d.nodes, Some(n), HasKey(d.hasPublicKey, field)))
        case None => Err(BadField)
  }

  /** The lines, applied in order, or the first that fails. */
  function ApplyLines(o: Outside, publicKey: Key -> Key, lines: seq<string>): Result<Draft, NodeFailure>
  {
    if lines == [] then Ok(NO_NODES)
    else
      match ApplyLines(o, publicKey, lines[..|lines| - 1])
      case Err(e) => Err(e)
      case Ok(d) =>
        match Apply(o, publicKey, d, SaysOf(Trim(DropCR(lines[|lines| - 1]))))
        case Ok(after) => Ok(after)
        case Err(e) => Err(AtLine(|lines|, e))
  }

  /** How many lines the scanner delivers. */
  function Delivered(lines: seq<string>): (n: nat)
    ensures n <= |lines|
    ensures forall i :: 0 <= i < n ==> ByteLength(lines[i]) < MAX_TOKEN
    ensures n < |lines| ==> ByteLength(lines[n]) >= MAX_TOKEN
  {
    if lines == [] || ByteLength(lines[0]) >= MAX_TOKEN then 0 else 1 + Delivered(lines[1..])
  }

  function NodesIn(o: Outside, publicKey: Key -> Key, content: string): Result<seq<Node>, NodeFailure> {
    if Trim(content) == "" then Ok([])
    else
      var lines := Lines(content);
      match ApplyLines(o, publicKey, lines[..Delivered(lines)])
      case Err(e) => Err(e)
      case Ok(d) =>
        if Delivered(lines) < |lines| then Err(LongLine)
        else
          match Ended(publicKey, d)
          case Ok(nodes) => Ok(nodes)
          case Err(e) => Err(AtEnd(e))
  }

  // ----- the loops of the source -----

  method ParseNets(o: Outside, n: Node, value: string) returns (r: Option<Node>)
    ensures r == WithField(o, n, NetsField, value)
  {
    hide ReadCidr, Trim, Split, ReadKey, ReadUDPAddr, ParseUint;
    var items := Split(value, ',');
    var node := n;
    assert n.allowedIPs + [] == n.allowedIPs;
    for i := 0 to |items|
      invariant ReadNets(o, items[..i]).Some? && node == WithNet(n, ReadNets(o, items[..i]).value)
    {
      Snoc(items, i);
      var net := ReadCidr(o, Trim(items[i]));
      if net.None? {
        NetsStop(o, items, i);
        return None;
      }
      Assoc(n.allowedIPs, ReadNets(o, items[..i]).value, [net.value]);
      node := node.(allowedIPs := node.allowedIPs + [net.value]);
    }
    Whole(items);
    r := Some(node);
  }

  lemma {:induction false} NetsStop(o: Outside, items: seq<string>, i: nat)
    requires i < |items| && ReadCidr(o, Trim(items[i])).None?
    ensures ReadNets(o, items).None?
  {
    if i == |items| - 1 {
    } else {
      NetsStop(o, items[..|items| - 1], i);
    }
  }

  method ParseField(o: Outside, n: Node, field: NodeField, value: string) returns (r: Option<Node>)
    ensures r == WithField(o, n, field, value)
  {
    hide ReadKey, ReadNets, ReadUDPAddr, ParseUint;
    var node := n;
    match field {
      case NameField =>
        node := node.(name := value);
      case PublicKeyField =>
        var v := ReadKey(value);
        if v.None? {
          return None;
        }
        node := node.(publicKey := v.value);
      case PrivateKeyField =>
        var v := ReadKey(value);
        if v.None? {
          return None;
        }
        node := node.(privateKey := v);
      case PresharedKeyField =>
        var v := ReadKey(value);
        if v.None? {
          return None;
        }
        node := node.(presharedKey := v.value);
      case NetsField =>
        r := ParseNets(o, n, value);
        return;
      case EndpointField =>
        var v := ReadUDPAddr(o, value);
        if v.None? {
          return None;
        }
        node := node.(endpoint := v);
      case KeepaliveField =>
        var v := ParseUint(value, 10, 65535);
        if v.None? {
          return None;
        }
        node := node.(keepalive := v.value * SECOND);
      case NotAField =>
        return None;
    }
    r := Some(node);
  }

  method FinishNode(publicKey: Key -> Key, nodes: seq<Node>, node: Option<Node>, hasPublicKey: bool)
    returns (r: Result<seq<Node>, NodeError>)
    ensures r == Ended(publicKey, Draft(nodes, node, hasPublicKey))
  {
    if node.None? {
      return Ok(nodes);
    }
    if !hasPublicKey {
      return Err(NoPublicKey);
    }
    if node.value.privateKey.Some? && publicKey(node.value.privateKey.value) != node.value.publicKey {
      return Err(WrongPrivateKey);
    }
    r := Ok(nodes + [node.value]);
  }

  /** One turn of the loop. */
  method ParseLine(o: Outside, publicKey: Key -> Key, d: Draft, raw: string) returns (r: Result<Draft, NodeError>)
    ensures r == Apply(o, publicKey, d, SaysOf(Trim(DropCR(raw))))
  {
    hide WithField, FieldNamed, Ended;
    var line := Trim(DropCR(raw));
    if |line| == 0 || line[0] == '#' {
      return Ok(d);
    }
    if line == "[Peer]" {
      var finished := FinishNode(publicKey, d.nodes, d.node, d.hasPublicKey);
      if finished.Err? {
        return Err(finished.error);
      }
      return Ok(Draft(finished.value, Some(NEW_NODE), false));
    }
    if d.node.None? {
      return Err(OutsideNode);
    }
    var kv := Cut(line, '=');
    if kv.None? {
      return Err(NoField);
    }
    var field, value := FieldNamed(Trim(kv.value.0)), Trim(kv.value.1);
    var n := ParseField(o, d.node.value, field, value);
    if n.None? {
      return Err(BadField);
    }
    r := Ok(Draft(d.nodes, n, d.hasPublicKey || field == PublicKeyField));
  }

  /** The line loop returns the nodes of the text, or its first failure. */
  method ParseNodes(o: Outside, publicKey: Key -> Key, content: string) returns (r: Result<seq<Node>, NodeFailure>)
    ensures r == NodesIn(o, publicKey, content)
  {
    hide Apply, SaysOf, DropCR, Trim, Lines, Ended, Delivered;
    if Trim(content) == "" {
      return Ok([]);
    }
    var d, lines := NO_NODES, Lines(content);
    ghost var n := Delivered(lines);
    var i := 0;
    assert lines[..0] == [];
    while i < |lines| && ByteLength(lines[i]) < MAX_TOKEN
      invariant i <= n && ApplyLines(o, publicKey, lines[..i]) == Ok(d)
    {
      Snoc(lines, i);
      var after := ParseLine(o, publicKey, d, lines[i]);
      if after.Err? {
        assert lines[..n][..i + 1] == lines[..i + 1];
        FailureStays(o, publicKey, lines[..n], i + 1);
        return Err(AtLine(i + 1, after.error));
      }
      d := after.value;
      i := i + 1;
    }
    if i < |lines| {
      return Err(LongLine);
    }
    var nodes := FinishNode(publicKey, d.nodes, d.node, d.hasPublicKey);
    r := match nodes case Ok(ns) => Ok(ns) case Err(e) => Err(AtEnd(e));
  }

  lemma {:induction false} FailureStays(o: Outside, publicKey: Key -> Key, lines: seq<string>, n: nat)
    requires n <= |lines| && ApplyLines(o, publicKey, lines[..n]).Err?
    ensures ApplyLines(o, publicKey, lines) == ApplyLines(o, publicKey, lines[..n])
  {
    hide Apply, SaysOf, DropCR, Trim;
    if n == |lines| {
      Whole(lines);
    } else {
      assert lines[..|lines| - 1][..n] == lines[..n];
      FailureStays(o, publicKey, lines[..|lines| - 1], n);
    }
  }

  // ----- writing -----

  /** The lines of one node; the preshared key is not shared. */
  function NodeLines(o: Outside, n: Node): seq<string> {
    ["[Peer]"] + IdentityLines(n) + TrafficLines(o, n)
  }

  function IdentityLines(n: Node): seq<string> {
    [Setting("Name", n.name), Setting("PublicKey", KeyText(n.publicKey))]
    + When(n.privateKey.Some?, Setting("PrivateKey", KeyText(n.privateKey.GetOr(ZeroKey()))))
  }

  function TrafficLines(o: Outside, n: Node): seq<string> {
    When(n.allowedIPs != [], Setting("AllowedIPs", Join(Values(o, n.allowedIPs), ", ")))
    + When(n.endpoint.Some?, Setting("Endpoint", EndpointValue(o, n)))
    + When(n.keepalive != 0, Setting("PersistentKeepalive", Itoa(WholeSeconds(n.keepalive))))
  }

  function EndpointValue(o: Outside, n: Node): string {
    if n.endpoint.Some? then FormatEndpoint(o, n.endpoint.value) else ""
  }

  /** The lines of all nodes, with an empty one between them. */
  function NodesLines(o: Outside, nodes: seq<Node>): seq<string>
  {
    if nodes == [] then []
    else NodesLines(o, nodes[..|nodes| - 1]) + When(|nodes| > 1, "") + NodeLines(o, nodes[|nodes| - 1])
  }

  method EncodeIdentity(w: Writer, n: Node)
    requires w.Valid()
    modifies w
    ensures w.Valid() && w.lines == old(w.lines) + IdentityLines(n)
  {
    hide Setting, KeyText, Unlines;
    ghost var start := w.lines;
    w.Println(Setting("Name", n.name));
    w.Println(Setting("PublicKey", KeyText(n.publicKey)));
    if n.privateKey.Some? {
      w.Println(Setting("PrivateKey", KeyText(n.privateKey.value)));
    }
    assert w.lines == start + IdentityLines(n);
  }

  method EncodeTraffic(w: Writer, o: Outside, n: Node)
    requires w.Valid()
    modifies w
    ensures w.Valid() && w.lines == old(w.lines) + TrafficLines(o, n)
  {
    hide Setting, Values, FormatEndpoint, Itoa, Join, Unlines, WholeSeconds;
    ghost var start := w.lines;
    if |n.allowedIPs| > 0 {
      var values := AllowedIPValues(o, n.allowedIPs);
      w.Println(Setting("AllowedIPs", Join(values, ", ")));
    }
    if n.endpoint.Some? {
      w.Println(Setting("Endpoint", FormatEndpoint(o, n.endpoint.value)));
    }
    if n.keepalive != 0 {
      w.Println(Setting("PersistentKeepalive", Itoa(WholeSeconds(n.keepalive))));
    }
    assert w.lines == start + TrafficLines(o, n);
  }

  method EncodeNode(w: Writer, o: Outside, n: Node)
    requires w.Valid()
    modifies w
    ensures w.Valid() && w.lines == old(w.lines) + NodeLines(o, n)
  {
    hide IdentityLines, TrafficLines, Unlines;
    ghost var start := w.lines;
    w.Println("[Peer]");
    EncodeIdentity(w, n);
    EncodeTraffic(w, o, n);
    assert w.lines == start + NodeLines(o, n);
  }

  method EncodeNodes(o: Outside, nodes: seq<Node>) returns (text: string)
    ensures text == Unlines(NodesLines(o, nodes))
  {
    hide NodeLines;
    var w := new Writer();
    for i := 0 to |nodes|
      invariant w.Valid() && fresh(w) && w.lines == NodesLines(o, nodes[..i])
    {
      Snoc(nodes, i);
      if i > 0 {
        w.Println("");
      }
      EncodeNode(w, o, nodes[i]);
    }
    Whole(nodes);
    text := w.text;
  }
}
