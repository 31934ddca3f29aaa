/** Writing the nodes of a gist and reading them back. */
module NodeRoundTrip {
  import opened Wrappers
  import opened WgTypes
  import opened Seqs
  import opened Text
  import opened Numbers
  import opened Base64
  import opened Addresses
  import opened Endpoints
  import opened UserParse
  import opened UserRoundTrip
  import opened ConfigLines
  import opened ConfigText
  import opened ConfigSpells
  import opened Nodes
  import opened NodeText

  // ----- what is shared -----

  function SpokenAll(nets: seq<Cidr>): (r: seq<Cidr>)
    ensures |r| == |nets|
  {
    if nets == [] then [] else SpokenAll(nets[..|nets| - 1]) + [Spoken(nets[|nets| - 1])]
  }

  /** The node that a gist shows: without its preshared key, and with whole seconds. */
  function Shared(n: Node): Node {
    Node(n.name, n.publicKey, n.privateKey, ZeroKey(), SpokenAll(n.allowedIPs), SharedEndpoint(n),
         WholeSeconds(n.keepalive) * SECOND)
  }

  function SharedEndpoint(n: Node): Option<UDPAddr> {
    if n.endpoint.Some? then
      var e := n.endpoint.value;
      Some(UDPAddr(Unmap(e.ip), e.port, e.zone))
    else None
  }

  function SharedAll(nodes: seq<Node>): (r: seq<Node>)
    ensures |r| == |nodes|
  {
    if nodes == [] then [] else SharedAll(nodes[..|nodes| - 1]) + [Shared(nodes[|nodes| - 1])]
  }

  /** A name on one line, and an endpoint whose text is read as an address. */
  predicate Writable(n: Node) {
    && Trimmed(n.name) && Absent(n.name, '\n')
    && (n.endpoint.Some? ==> EndpointSendable(n.endpoint.value))
  }

  predicate InSeconds(n: Node) {
    0 <= WholeSeconds(n.keepalive) <= 65535
  }

  // ----- lines -----

  /** The name of a field as it is written. */
  predicate Label(s: string) {
    s != "" && Token(s) && Absent(s, '=') && s[0] != '['
  }

  predicate Plainly(value: string) {
    Trimmed(value) && Absent(value, '\n')
  }

  lemma {:induction false} TokenPlainly(s: string)
    requires Token(s)
    ensures Plainly(s)
  {
    if s == "" {
    } else {
      TokenStart(s);
    }
  }

  lemma {:induction false} TrimSpaced(s: string)
    requires Trimmed(s)
    ensures Trim(s + [' ']) == s
  {
    var t := s + [' '];
    assert t[..|t| - 1] == s;
    TrimTrimmed(s);
    if s == "" {
      assert TrimLeft(t) == TrimLeft(t[1..]);
    } else {
      assert TrimLeft(t) == t && TrimRight(t) == TrimRight(s);
    }
  }

  /** A line without a value loses the space behind its equals sign. */
  lemma {:induction false} EmptySays(name: string)
    requires Label(name)
    ensures SaysOf(Trim(DropCR(Setting(name, "")))) == NodeText.FieldLine(FieldNamed(name), "")
  {
    hide FieldNamed;
    var line := name + [' ', '='];
    assert Setting(name, "") == line + [' '];
    TokenStart(name);
    assert line[0] == name[0] && line[|line| - 1] == '=';
    TrimSpaced(line);
    FirstAfter(name + [' '], '=', "");
    assert line == (name + [' ']) + ['='] + "";
    TrimSpaced(name);
    TrimTrimmed("");
  }

  lemma {:induction false} CutField(name: string, value: string)
    requires Absent(name, '=')
    ensures Cut(Setting(name, value), '=') == Some((name + [' '], [' '] + value))
  {
    FirstAfter(name + [' '], '=', [' '] + value);
    assert Setting(name, value) == (name + [' ']) + ['='] + ([' '] + value);
  }

  lemma {:induction false} FieldLineTrimmed(name: string, value: string)
    requires Label(name) && Plainly(value) && value != ""
    ensures var line := Setting(name, value);
            Trim(DropCR(line)) == line && line != "" && line[0] != '#' && line[0] != '['
  {
    hide Trim;
    var line := Setting(name, value);
    TokenStart(name);
    assert line[0] == name[0] && line[|line| - 1] == value[|value| - 1];
    TrimTrimmed(line);
  }

  lemma {:induction false} FieldSays(name: string, value: string)
    requires Label(name) && Plainly(value)
    ensures SaysOf(Trim(DropCR(Setting(name, value)))) == NodeText.FieldLine(FieldNamed(name), value)
  {
    hide FieldNamed, Trim, Cut, Setting, DropCR;
    if value == "" {
      EmptySays(name);
    } else {
      FieldLineTrimmed(name, value);
      CutField(name, value);
      TokenStart(name);
      TrimSpaced(name);
      TrimTrimmed(value);
    }
  }

  function SaysAll(lines: seq<string>): (r: seq<NodeLine>)
    ensures |r| == |lines|
  {
    if lines == [] then [] else SaysAll(lines[..|lines| - 1]) + [SaysOf(Trim(DropCR(lines[|lines| - 1])))]
  }

  lemma {:induction false} SaysConcat(a: seq<string>, b: seq<string>)
    ensures SaysAll(a + b) == SaysAll(a) + SaysAll(b)
    decreases |b|
  {
    hide SaysOf, Trim, DropCR;
    if b == [] {
      Assoc(a, [], []);
    } else {
      assert (a + b)[..|a + b| - 1] == a + b[..|b| - 1];
      SaysConcat(a, b[..|b| - 1]);
    }
  }

  lemma {:induction false} SaysOne(line: string)
    ensures SaysAll([line]) == [SaysOf(Trim(DropCR(line)))]
  {
    hide SaysOf, Trim, DropCR;
    assert [line][..0] == [];
  }

  /** A line that is there under a condition. */
  lemma {:induction false} WhenSays(b: bool, name: string, value: string)
    requires Label(name) && (b ==> Plainly(value))
    ensures SaysAll(When(b, Setting(name, value)))
              == When(b, NodeText.FieldLine(FieldNamed(name), value))
  {
    hide SaysOf, Trim, DropCR, Setting, FieldNamed, Label, Plainly;
    if b {
      FieldSays(name, value);
      SaysOne(Setting(name, value));
    }
  }

  // ----- values -----

  lemma {:induction false} Labels()
    ensures Label("Name") && Label("PublicKey") && Label("PrivateKey")
  {
  }

  lemma {:induction false} MoreLabels()
    ensures Label("AllowedIPs") && Label("Endpoint") && Label("PersistentKeepalive")
  {
  }

  lemma {:induction false} Fields()
    ensures FieldNamed("Name") == NameField && FieldNamed("PublicKey") == PublicKeyField
    ensures FieldNamed("PrivateKey") == PrivateKeyField
  {
  }

  lemma {:induction false} MoreFields()
    ensures FieldNamed("AllowedIPs") == NetsField && FieldNamed("Endpoint") == EndpointField
    ensures FieldNamed("PersistentKeepalive") == KeepaliveField
  {
  }

  function Spaced(values: seq<string>): (r: seq<string>)
    ensures |r| == |values|
  {
    seq(|values|, i requires 0 <= i < |values| => " " + values[i])
  }

  lemma {:induction false} SpacedRest(rest: seq<string>)
    requires rest != []
    ensures [" " + rest[0]] + Spaced(rest[1..]) == Spaced(rest)
  {
  }

  lemma {:induction false} JoinMore(before: string, values: seq<string>)
    requires |values| > 1
    ensures before + Join(values, ", ") == (before + values[0]) + [','] + (" " + Join(values[1..], ", "))
  {
    hide Join;
    assert Join(values, ", ") == values[0] + ", " + Join(values[1..], ", ") by {
      JoinStep(values);
    }
  }

  lemma {:induction false} JoinStep(values: seq<string>)
    requires |values| > 1
    ensures Join(values, ", ") == values[0] + ", " + Join(values[1..], ", ")
  {
  }

  lemma {:induction false} AbsentConcat(a: string, b: string, c: char)
    requires Absent(a, c) && Absent(b, c)
    ensures Absent(a + b, c)
  {
  }

  /** Splitting at the commas leaves a space before every value but the first. */
  lemma {:induction false} SplitSpaced(before: string, values: seq<string>)
    requires values != [] && Absent(before, ',') && AllAbsent(values, ',')
    ensures Split(before + Join(values, ", "), ',') == [before + values[0]] + Spaced(values[1..])
    decreases |values|
  {
    hide Join, Split, Spaced, Absent;
    var head, rest := before + values[0], values[1..];
    AbsentConcat(before, values[0], ',');
    if rest == [] {
      OneValue(before, values);
    } else {
      assert AllAbsent(rest, ',') by {
        assert forall i :: 0 <= i < |rest| ==> rest[i] == values[i + 1];
      }
      NoComma();
      SplitSpaced(" ", rest);
      JoinMore(before, values);
      SplitAfter(head, ',', " " + Join(rest, ", "));
      SpacedRest(rest);
    }
  }

  lemma {:induction false} NoComma()
    ensures Absent(" ", ',')
  {
  }

  lemma {:induction false} OneValue(before: string, values: seq<string>)
    requires |values| == 1 && Absent(before + values[0], ',')
    ensures Split(before + Join(values, ", "), ',') == [before + values[0]] + Spaced(values[1..])
  {
    FirstNone(before + values[0], ',');
  }

  lemma {:induction false} TrimmedReads(o: Outside, nets: seq<Cidr>, items: seq<string>)
    requires LawfulIP6(o) && |items| == |nets|
    requires forall i :: 0 <= i < |nets| ==> Trim(items[i]) == WriteCidr(o, nets[i])
    ensures ReadNets(o, items) == Some(SpokenAll(nets))
  {
    hide Trim, WriteCidr, ReadCidr, Spoken, LawfulIP6;
    if nets == [] {
    } else {
      TrimmedReads(o, nets[..|nets| - 1], items[..|nets| - 1]);
      CidrRoundTrip(o, nets[|nets| - 1]);
    }
  }

  /** The value of an AllowedIPs line is read as the networks it was made of. */
  lemma {:induction false} NetsShared(o: Outside, nets: seq<Cidr>)
    requires LawfulIP6(o) && nets != []
    ensures var value := Join(Values(o, nets), ", ");
            ReadNets(o, Split(value, ',')) == Some(SpokenAll(nets))
  {
    hide WriteCidr, LawfulIP6, Join, Trim, ReadNets, ReadOperations, Split, SomeSigned;
    var values := Values(o, nets);
    NetsRead(o, nets);
    SplitSpaced("", values);
    assert "" + Join(values, ", ") == Join(values, ", ") && "" + values[0] == values[0];
    var items := [values[0]] + Spaced(values[1..]);
    forall i | 0 <= i < |nets|
      ensures Trim(items[i]) == WriteCidr(o, nets[i])
    {
      ValuesAt(o, nets, i);
      NetReads(o, nets[i]);
      TokenStart(WriteCidr(o, nets[i]));
      TrimTrimmed(WriteCidr(o, nets[i]));
    }
    TrimmedReads(o, nets, items);
  }

  lemma {:induction false} JoinPlainly(values: seq<string>)
    requires values != [] && Tokens(values) && forall i :: 0 <= i < |values| ==> values[i] != ""
    ensures Plainly(Join(values, ", ")) && Join(values, ", ") != ""
    decreases |values|
  {
    TokenStart(values[0]);
    if |values| == 1 {
    } else {
      var rest := values[1..];
      assert forall i :: 0 <= i < |rest| ==> rest[i] == values[i + 1];
      JoinPlainly(rest);
      var s := Join(values, ", ");
      assert s == values[0] + (", " + Join(rest, ", "));
      assert s[|s| - 1] == Join(rest, ", ")[|Join(rest, ", ")| - 1] && s[0] == values[0][0];
    }
  }

  lemma {:induction false} NetsPlainly(o: Outside, nets: seq<Cidr>)
    requires LawfulIP6(o) && nets != []
    ensures Plainly(Join(Values(o, nets), ", "))
  {
    hide WriteCidr, LawfulIP6, Join, ReadOperations, SomeSigned, Plainly;
    NetsRead(o, nets);
    forall i | 0 <= i < |nets|
      ensures Values(o, nets)[i] != ""
    {
      ValuesAt(o, nets, i);
      NetReads(o, nets[i]);
    }
    JoinPlainly(Values(o, nets));
  }

  lemma {:induction false} SecondsRead(n: int)
    ensures Plainly(Itoa(n))
    ensures ParseUint(Itoa(n), 10, 65535) == if 0 <= n <= 65535 then Some(n) else None
  {
    hide Format, ParseUint, Plainly;
    if n < 0 {
      ParseFormat(-n, 10, 65535);
      NegativeUnread(Format(-n, 10));
    } else {
      ParseFormat(n, 10, 65535);
      TokenPlainly(Format(n, 10));
    }
  }

  lemma {:induction false} NegativeUnread(digits: string)
    requires Token(digits)
    ensures ParseUint("-" + digits, 10, 65535) == None && Plainly("-" + digits)
  {
    var s := "-" + digits;
    assert DigitValue(s[0]) == 16;
    assert Token(s);
    TokenPlainly(s);
  }

  lemma {:induction false} EndpointShared(o: Outside, e: UDPAddr)
    requires LawfulIP6(o) && LawfulPorts(o) && EndpointSendable(e)
    ensures ReadUDPAddr(o, FormatEndpoint(o, e)) == Some(UDPAddr(Unmap(e.ip), e.port, e.zone))
    ensures Plainly(FormatEndpoint(o, e))
  {
    hide FormatEndpoint, ReadUDPAddr, Unmap, LawfulIP6, LawfulPorts, Plainly;
    AddrReadsBack(o, e);
    Endpoints.EndpointText(o, e);
    TokenPlainly(FormatEndpoint(o, e));
  }

  // ----- what the lines of a node do -----

  /** The draft after some lines, or None once one has failed. */
  function Continued(o: Outside, publicKey: Key -> Key, d: Option<Draft>, says: seq<NodeLine>): Option<Draft>
  {
    if says == [] then d
    else
      match Continued(o, publicKey, d, says[..|says| - 1])
      case None => None
      case Some(before) =>
        match Apply(o, publicKey, before, says[|says| - 1])
        case Ok(after) => Some(after)
        case Err(_) => None
  }

  lemma {:induction false} ContinuedConcat(
    o: Outside, publicKey: Key -> Key, d: Option<Draft>, a: seq<NodeLine>, b: seq<NodeLine>)
    ensures Continued(o, publicKey, d, a + b) == Continued(o, publicKey, Continued(o, publicKey, d, a), b)
    decreases |b|
  {
    hide Apply;
    if b == [] {
      Assoc(a, [], []);
    } else {
      assert (a + b)[..|a + b| - 1] == a + b[..|b| - 1];
      ContinuedConcat(o, publicKey, d, a, b[..|b| - 1]);
    }
  }

  lemma {:induction false} ContinuedNone(o: Outside, publicKey: Key -> Key, says: seq<NodeLine>)
    ensures Continued(o, publicKey, None, says) == None
  {
    hide Apply;
    if says == [] {
    } else {
      ContinuedNone(o, publicKey, says[..|says| - 1]);
    }
  }

  lemma {:induction false} ContinuedOne(o: Outside, publicKey: Key -> Key, d: Draft, line: NodeLine)
    ensures Continued(o, publicKey, Some(d), [line]) ==
            match Apply(o, publicKey, d, line) case Ok(after) => Some(after) case Err(_) => None
  {
    hide Apply;
    assert [line][..0] == [];
  }

  lemma {:induction false} LinesContinue(o: Outside, publicKey: Key -> Key, lines: seq<string>)
    ensures Continued(o, publicKey, Some(NO_NODES), SaysAll(lines)) ==
            match ApplyLines(o, publicKey, lines) case Ok(d) => Some(d) case Err(_) => None
  {
    hide Apply, SaysOf, Trim, DropCR;
    if lines == [] {
    } else {
      LinesContinue(o, publicKey, lines[..|lines| - 1]);
      assert SaysAll(lines)[..|lines| - 1] == SaysAll(lines[..|lines| - 1]);
    }
  }

  /** One field line of a node that has `n` so far. */
  lemma {:induction false} FieldApplies(
    o: Outside, publicKey: Key -> Key, nodes: seq<Node>, n: Node, known: bool, b: bool, field: NodeField, value: string)
    ensures Continued(o, publicKey, Some(Draft(nodes, Some(n), known)),
              When(b, NodeText.FieldLine(field, value))) ==
            if !b then Some(Draft(nodes, Some(n), known))
            else if WithField(o, n, field, value).None? then None
            else Some(Draft(nodes, WithField(o, n, field, value), HasKey(known, field)))
  {
    hide WithField;
    if b {
      ContinuedOne(o, publicKey, Draft(nodes, Some(n), known), NodeText.FieldLine(field, value));
    }
  }

  function IdentitySays(n: Node): seq<NodeLine> {
    When(true, NodeText.FieldLine(NameField, n.name))
    + When(true, NodeText.FieldLine(PublicKeyField, KeyText(n.publicKey)))
    + When(n.privateKey.Some?, NodeText.FieldLine(PrivateKeyField, KeyText(n.privateKey.GetOr(ZeroKey()))))
  }

  function TrafficSays(o: Outside, n: Node): seq<NodeLine> {
    When(n.allowedIPs != [], NodeText.FieldLine(NetsField, Join(Values(o, n.allowedIPs), ", ")))
    + When(n.endpoint.Some?, NodeText.FieldLine(EndpointField, EndpointValue(o, n)))
    + When(n.keepalive != 0, NodeText.FieldLine(KeepaliveField, Itoa(WholeSeconds(n.keepalive))))
  }

  lemma {:induction false} KeyPlainly(k: Key)
    ensures Plainly(KeyText(k)) && ReadKey(KeyText(k)) == Some(k)
  {
    hide Plainly, ReadKey, KeyText;
    KeyTextReads(k);
    TokenPlainly(KeyText(k));
  }

  lemma {:induction false} IdentityLinesSay(n: Node)
    requires Writable(n)
    ensures SaysAll(IdentityLines(n)) == IdentitySays(n)
  {
    hide SaysAll, Setting, KeyText, FieldNamed, Label;
    Labels();
    Fields();
    var key := n.privateKey.GetOr(ZeroKey());
    KeyPlainly(n.publicKey);
    KeyPlainly(key);
    var a := When(true, Setting("Name", n.name));
    var b := When(true, Setting("PublicKey", KeyText(n.publicKey)));
    var c := When(n.privateKey.Some?, Setting("PrivateKey", KeyText(key)));
    WhenSays(true, "Name", n.name);
    WhenSays(true, "PublicKey", KeyText(n.publicKey));
    WhenSays(n.privateKey.Some?, "PrivateKey", KeyText(key));
    SaysConcat(a, b);
    SaysConcat(a + b, c);
    assert IdentityLines(n) == a + b + c;
  }

  lemma {:induction false} TrafficLinesSay(o: Outside, n: Node)
    requires LawfulIP6(o) && LawfulPorts(o) && Writable(n)
    ensures SaysAll(TrafficLines(o, n)) == TrafficSays(o, n)
  {
    hide SaysAll, Setting, FieldNamed, Label, Plainly, Join, Values, FormatEndpoint, Itoa, LawfulIP6, LawfulPorts,
      WholeSeconds;
    MoreLabels();
    MoreFields();
    var nets, endpoint, seconds := Join(Values(o, n.allowedIPs), ", "), EndpointValue(o, n),
      Itoa(WholeSeconds(n.keepalive));
    if n.allowedIPs != [] {
      NetsPlainly(o, n.allowedIPs);
    }
    if n.endpoint.Some? {
      EndpointShared(o, n.endpoint.value);
    }
    SecondsRead(WholeSeconds(n.keepalive));
    var a := When(n.allowedIPs != [], Setting("AllowedIPs", nets));
    var b := When(n.endpoint.Some?, Setting("Endpoint", endpoint));
    var c := When(n.keepalive != 0, Setting("PersistentKeepalive", seconds));
    WhenSays(n.allowedIPs != [], "AllowedIPs", nets);
    WhenSays(n.endpoint.Some?, "Endpoint", endpoint);
    WhenSays(n.keepalive != 0, "PersistentKeepalive", seconds);
    SaysConcat(a, b);
    SaysConcat(a + b, c);
  }

  /** The fields that identify a node. */
  function Identified(n: Node): Node {
    Node(n.name, n.publicKey, n.privateKey, ZeroKey(), [], None, 0)
  }

  lemma {:induction false} IdentityApplies(o: Outside, publicKey: Key -> Key, nodes: seq<Node>, n: Node)
    ensures Continued(o, publicKey, Some(Draft(nodes, Some(NEW_NODE), false)), IdentitySays(n))
         == Some(Draft(nodes, Some(Identified(n)), true))
  {
    hide Continued, KeyText, ReadKey, ReadNets, ReadUDPAddr, ParseUint;
    var key := n.privateKey.GetOr(ZeroKey());
    KeyPlainly(n.publicKey);
    KeyPlainly(key);
    var n1 := NEW_NODE.(name := n.name);
    var n2 := n1.(publicKey := n.publicKey);
    var d := Some(Draft(nodes, Some(NEW_NODE), false));
    var a := When(true, NodeText.FieldLine(NameField, n.name));
    var b := When(true, NodeText.FieldLine(PublicKeyField, KeyText(n.publicKey)));
    var c := When(n.privateKey.Some?, NodeText.FieldLine(PrivateKeyField, KeyText(key)));
    FieldApplies(o, publicKey, nodes, NEW_NODE, false, true, NameField, n.name);
    FieldApplies(o, publicKey, nodes, n1, false, true, PublicKeyField, KeyText(n.publicKey));
    FieldApplies(o, publicKey, nodes, n2, true, n.privateKey.Some?, PrivateKeyField, KeyText(key));
    ContinuedConcat(o, publicKey, d, a, b);
    ContinuedConcat(o, publicKey, d, a + b, c);
  }

  lemma {:induction false} TrafficApplies(o: Outside, publicKey: Key -> Key, nodes: seq<Node>, n: Node)
    requires LawfulIP6(o) && LawfulPorts(o) && Writable(n)
    ensures Continued(o, publicKey, Some(Draft(nodes, Some(Identified(n)), true)), TrafficSays(o, n))
         == if InSeconds(n) then Some(Draft(nodes, Some(Shared(n)), true)) else None
  {
    hide Continued, ReadKey, ReadNets, ReadUDPAddr, ParseUint, Join, Values, FormatEndpoint, Itoa, LawfulIP6,
      LawfulPorts, Plainly, SpokenAll, WholeSeconds, Unmap, Split;
    var nets, endpoint, seconds := Join(Values(o, n.allowedIPs), ", "), EndpointValue(o, n),
      Itoa(WholeSeconds(n.keepalive));
    NoSpoken();
    NoSeconds();
    if n.allowedIPs != [] {
      NetsShared(o, n.allowedIPs);
    }
    if n.endpoint.Some? {
      EndpointShared(o, n.endpoint.value);
    }
    SecondsRead(WholeSeconds(n.keepalive));
    var n0 := Identified(n);
    var n1 := n0.(allowedIPs := SpokenAll(n.allowedIPs));
    var n2 := n1.(endpoint := SharedEndpoint(n));
    assert WithNet(n0, SpokenAll(n.allowedIPs)) == n1;
    var d := Some(Draft(nodes, Some(n0), true));
    var a := When(n.allowedIPs != [], NodeText.FieldLine(NetsField, nets));
    var b := When(n.endpoint.Some?, NodeText.FieldLine(EndpointField, endpoint));
    var c := When(n.keepalive != 0, NodeText.FieldLine(KeepaliveField, seconds));
    FieldApplies(o, publicKey, nodes, n0, true, n.allowedIPs != [], NetsField, nets);
    FieldApplies(o, publicKey, nodes, n1, true, n.endpoint.Some?, EndpointField, endpoint);
    FieldApplies(o, publicKey, nodes, n2, true, n.keepalive != 0, KeepaliveField, seconds);
    ContinuedConcat(o, publicKey, d, a, b);
    ContinuedConcat(o, publicKey, d, a + b, c);
  }

  lemma {:induction false} NoSpoken()
    ensures SpokenAll([]) == []
  {
  }

  lemma {:induction false} NoSeconds()
    ensures WholeSeconds(0) == 0
  {
  }

  // ----- all nodes -----

  lemma {:induction false} FixedLines()
    ensures SaysAll(["[Peer]"]) == [NodeStart] && SaysAll([""]) == [Ignored]
  {
    SaysOne("[Peer]");
    SaysOne("");
    TrimTrimmed("[Peer]");
    TrimTrimmed("");
  }

  lemma {:induction false} NodeLinesSay(o: Outside, n: Node)
    requires LawfulIP6(o) && LawfulPorts(o) && Writable(n)
    ensures SaysAll(NodeLines(o, n)) == [NodeStart] + IdentitySays(n) + TrafficSays(o, n)
  {
    hide SaysAll, IdentityLines, TrafficLines, IdentitySays, TrafficSays, LawfulIP6, LawfulPorts;
    FixedLines();
    IdentityLinesSay(n);
    TrafficLinesSay(o, n);
    SaysConcat(["[Peer]"], IdentityLines(n));
    SaysConcat(["[Peer]"] + IdentityLines(n), TrafficLines(o, n));
  }

  /** The lines of a node end the one before them and leave it as the node being read. */
  lemma {:induction false} NodeContinues(o: Outside, publicKey: Key -> Key, d: Draft, n: Node)
    requires LawfulIP6(o) && LawfulPorts(o) && Writable(n)
    ensures Continued(o, publicKey, Some(d), SaysAll(NodeLines(o, n)))
         == if Ended(publicKey, d).Ok?
           && InSeconds(n) then Some(Draft(Ended(publicKey, d).value, Some(Shared(n)), true))
            else None
  {
    hide Continued, Ended, IdentitySays, TrafficSays, InSeconds, SaysAll, LawfulIP6, LawfulPorts, NodeLines, Shared,
      Identified;
    NodeLinesSay(o, n);
    ContinuedOne(o, publicKey, d, NodeStart);
    ContinuedConcat(o, publicKey, Some(d), [NodeStart], IdentitySays(n));
    ContinuedConcat(o, publicKey, Some(d), [NodeStart] + IdentitySays(n), TrafficSays(o, n));
    if Ended(publicKey, d).Ok? {
      IdentityApplies(o, publicKey, Ended(publicKey, d).value, n);
      TrafficApplies(o, publicKey, Ended(publicKey, d).value, n);
    } else {
      ContinuedNone(o, publicKey, IdentitySays(n));
      ContinuedNone(o, publicKey, TrafficSays(o, n));
    }
  }

  /** All keepalives are in range, and so are the keys of all nodes that another one ends. */
  predicate AllRead(publicKey: Key -> Key, nodes: seq<Node>) {
    && (forall i :: 0 <= i < |nodes| ==> InSeconds(nodes[i]))
    && (forall i :: 0 <= i < |nodes| - 1 ==> KeysMatch(publicKey, nodes[i]))
  }

  lemma {:induction false} AllReadSnoc(publicKey: Key -> Key, nodes: seq<Node>)
    requires nodes != []
    ensures var init := nodes[..|nodes| - 1];
            AllRead(publicKey, nodes) <==>
              AllRead(publicKey, init) && InSeconds(nodes[|nodes| - 1])
              && (init != [] ==> KeysMatch(publicKey, init[|init| - 1]))
  {
    hide InSeconds, KeysMatch;
    var init := nodes[..|nodes| - 1];
    assert forall i :: 0 <= i < |init| ==> init[i] == nodes[i];
  }

  /** The draft that the lines of some nodes lead to. */
  function DraftOf(publicKey: Key -> Key, nodes: seq<Node>): Option<Draft> {
    if nodes == [] then Some(NO_NODES)
    else if !AllRead(publicKey, nodes) then None
    else Some(Draft(SharedAll(nodes[..|nodes| - 1]), Some(Shared(nodes[|nodes| - 1])), true))
  }

  /** Reading ends well exactly when the keys of the last node match. */
  lemma {:induction false} DraftEnds(publicKey: Key -> Key, nodes: seq<Node>)
    requires DraftOf(publicKey, nodes).Some?
    ensures Ended(publicKey, DraftOf(publicKey, nodes).value).Ok? <==>
              nodes != [] ==> KeysMatch(publicKey, nodes[|nodes| - 1])
    ensures var r := Ended(publicKey, DraftOf(publicKey, nodes).value); r.Ok? ==> r.value == SharedAll(nodes)
  {
    hide AllRead, Spoken, WholeSeconds, Unmap;
  }

  lemma {:induction false} BlankContinues(o: Outside, publicKey: Key -> Key, d: Option<Draft>, b: bool)
    ensures Continued(o, publicKey, d, SaysAll(When(b, ""))) == d
  {
    hide SaysAll, SaysOf, Trim, Continued;
    FixedLines();
    if b {
      if d.Some? {
        ContinuedOne(o, publicKey, d.value, Ignored);
      } else {
        ContinuedNone(o, publicKey, [Ignored]);
      }
    } else {
      NothingContinues(o, publicKey, d);
    }
  }

  lemma {:induction false} NothingContinues(o: Outside, publicKey: Key -> Key, d: Option<Draft>)
    ensures SaysAll([]) == [] && Continued(o, publicKey, d, []) == d
  {
  }

  ghost predicate AllWritable(nodes: seq<Node>) {
    forall i :: 0 <= i < |nodes| ==> Writable(nodes[i])
  }

  lemma {:induction false} NodesContinue(o: Outside, publicKey: Key -> Key, nodes: seq<Node>)
    requires LawfulIP6(o) && LawfulPorts(o) && AllWritable(nodes)
    ensures Continued(o, publicKey, Some(NO_NODES), SaysAll(NodesLines(o, nodes))) == DraftOf(publicKey, nodes)
  {
    hide Continued, Ended, SaysAll, LawfulIP6, LawfulPorts, Writable, NodeLines, Shared, AllRead, InSeconds, KeysMatch;
    if nodes == [] {
      NothingContinues(o, publicKey, Some(NO_NODES));
    } else {
      var init, n := nodes[..|nodes| - 1], nodes[|nodes| - 1];
      NodesContinue(o, publicKey, init);
      AllReadSnoc(publicKey, nodes);
      var lines, blank := NodesLines(o, init), When(|nodes| > 1, "");
      SaysConcat(lines, blank);
      SaysConcat(lines + blank, NodeLines(o, n));
      ContinuedConcat(o, publicKey, Some(NO_NODES), SaysAll(lines), SaysAll(blank));
      ContinuedConcat(o, publicKey, Some(NO_NODES), SaysAll(lines) + SaysAll(blank), SaysAll(NodeLines(o, n)));
      BlankContinues(o, publicKey, DraftOf(publicKey, init), |nodes| > 1);
      if DraftOf(publicKey, init).Some? {
        DraftEnds(publicKey, init);
        NodeContinues(o, publicKey, DraftOf(publicKey, init).value, n);
      } else {
        ContinuedNone(o, publicKey, SaysAll(NodeLines(o, n)));
      }
      FirstNodeRead(publicKey, init);
    }
  }

  lemma {:induction false} FirstNodeRead(publicKey: Key -> Key, nodes: seq<Node>)
    ensures nodes == [] ==> AllRead(publicKey, nodes)
  {
  }

  // ----- the text -----

  predicate AllAcceptable(publicKey: Key -> Key, nodes: seq<Node>) {
    forall i :: 0 <= i < |nodes| ==> KeysMatch(publicKey, nodes[i]) && InSeconds(nodes[i])
  }

  predicate Fitting(lines: seq<string>) {
    forall i :: 0 <= i < |lines| ==> ByteLength(lines[i]) < MAX_TOKEN
  }

  lemma {:induction false} AcceptableIsRead(publicKey: Key -> Key, nodes: seq<Node>)
    ensures AllAcceptable(publicKey, nodes) <==>
              AllRead(publicKey, nodes) && (nodes != [] ==> KeysMatch(publicKey, nodes[|nodes| - 1]))
  {
    hide KeysMatch, InSeconds;
  }

  lemma {:induction false} SettingOnLine(b: bool, name: string, value: string)
    requires Label(name) && (b ==> Plainly(value))
    ensures AllAbsent(When(b, Setting(name, value)), '\n')
  {
  }

  lemma {:induction false} LinesTogether(a: seq<string>, b: seq<string>)
    requires AllAbsent(a, '\n') && AllAbsent(b, '\n')
    ensures AllAbsent(a + b, '\n')
  {
    hide Absent;
  }

  lemma {:induction false} FixedOnLine(b: bool)
    ensures AllAbsent(["[Peer]"], '\n') && AllAbsent(When(b, ""), '\n')
  {
  }

  lemma {:induction false} NodeOnLines(o: Outside, n: Node)
    requires LawfulIP6(o) && LawfulPorts(o) && Writable(n)
    ensures AllAbsent(NodeLines(o, n), '\n')
  {
    hide AllAbsent, Setting, Label, Plainly, Join, Values, FormatEndpoint, Itoa, KeyText, LawfulIP6, LawfulPorts,
      WholeSeconds;
    Labels();
    MoreLabels();
    FixedOnLine(false);
    var key := n.privateKey.GetOr(ZeroKey());
    KeyPlainly(n.publicKey);
    KeyPlainly(key);
    if n.allowedIPs != [] {
      NetsPlainly(o, n.allowedIPs);
    }
    if n.endpoint.Some? {
      EndpointShared(o, n.endpoint.value);
    }
    SecondsRead(WholeSeconds(n.keepalive));
    var name, public := Setting("Name", n.name), Setting("PublicKey", KeyText(n.publicKey));
    var a := When(n.privateKey.Some?, Setting("PrivateKey", KeyText(key)));
    var b := When(n.allowedIPs != [], Setting("AllowedIPs", Join(Values(o, n.allowedIPs), ", ")));
    var c := When(n.endpoint.Some?, Setting("Endpoint", EndpointValue(o, n)));
    var d := When(n.keepalive != 0, Setting("PersistentKeepalive", Itoa(WholeSeconds(n.keepalive))));
    NamePlainly(n);
    SettingOnLine(true, "Name", n.name);
    SettingOnLine(true, "PublicKey", KeyText(n.publicKey));
    SettingOnLine(n.privateKey.Some?, "PrivateKey", KeyText(key));
    SettingOnLine(n.allowedIPs != [], "AllowedIPs", Join(Values(o, n.allowedIPs), ", "));
    SettingOnLine(n.endpoint.Some?, "Endpoint", EndpointValue(o, n));
    SettingOnLine(n.keepalive != 0, "PersistentKeepalive", Itoa(WholeSeconds(n.keepalive)));
    LinesTogether(When(true, name), When(true, public));
    assert [name] + [public] == [name, public];
    LinesTogether([name, public], a);
    LinesTogether(b, c);
    LinesTogether(b + c, d);
    LinesTogether(["[Peer]"], IdentityLines(n));
    LinesTogether(["[Peer]"] + IdentityLines(n), TrafficLines(o, n));
  }

  lemma {:induction false} NamePlainly(n: Node)
    requires Writable(n)
    ensures Plainly(n.name)
  {
  }

  lemma {:induction false} NodesOnLines(o: Outside, nodes: seq<Node>)
    requires LawfulIP6(o) && LawfulPorts(o) && AllWritable(nodes)
    ensures AllAbsent(NodesLines(o, nodes), '\n')
    ensures nodes != [] ==> NodesLines(o, nodes) != [] && NodesLines(o, nodes)[0] == "[Peer]"
  {
    hide LawfulIP6, LawfulPorts, Writable, Absent, IdentityLines, TrafficLines;
    if nodes == [] {
    } else {
      var init, n := nodes[..|nodes| - 1], nodes[|nodes| - 1];
      NodesOnLines(o, init);
      NodeOnLines(o, n);
      FixedOnLine(|nodes| > 1);
      LinesTogether(NodesLines(o, init), When(|nodes| > 1, ""));
      LinesTogether(NodesLines(o, init) + When(|nodes| > 1, ""), NodeLines(o, n));
    }
  }

  lemma {:induction false} TextStarts(lines: seq<string>)
    requires lines != [] && lines[0] == "[Peer]"
    ensures Trim(Unlines(lines)) != ""
  {
    hide Trim;
    assert lines == [lines[0]] + lines[1..];
    UnlinesConcat([lines[0]], lines[1..]);
    assert [lines[0]][..0] == [];
    assert Unlines([lines[0]]) == Unlines([]) + lines[0] + "\n";
    assert Unlines(lines)[0] == '[';
    TrimKeepsStart(Unlines(lines));
  }

  /**
   * Writing nodes and reading the text: exactly when every private key belongs to its
   * public key, every keepalive is 0 to 65535 whole seconds, and no line exceeds the
   * scanner's token size, the outcome is the nodes in order, each without its preshared key.
   */
  lemma {:induction false} NodesRoundTrip(o: Outside, publicKey: Key -> Key, nodes: seq<Node>)
    requires LawfulIP6(o) && LawfulPorts(o) && AllWritable(nodes)
    ensures var lines := NodesLines(o, nodes);
            var r := NodesIn(o, publicKey, Unlines(lines));
            && (r.Ok? <==> AllAcceptable(publicKey, nodes) && Fitting(lines))
            && (r.Ok? ==> r.value == SharedAll(nodes))
  {
    hide LawfulIP6, LawfulPorts, AllWritable, AllAcceptable, AllRead, KeysMatch, ByteLength, Trim, Unlines,
      NodesLines, Ended, ApplyLines, Continued, SharedAll, Lines, SaysAll;
    var lines := NodesLines(o, nodes);
    AcceptableIsRead(publicKey, nodes);
    FirstNodeRead(publicKey, nodes);
    NodesOnLines(o, nodes);
    LinesUnlines(lines);
    LinesContinue(o, publicKey, lines);
    NodesContinue(o, publicKey, nodes);
    Whole(lines);
    if nodes == [] {
      NoText(o);
    } else {
      TextStarts(lines);
      if DraftOf(publicKey, nodes).Some? {
        DraftEnds(publicKey, nodes);
      }
    }
  }

  lemma {:induction false} NoText(o: Outside)
    ensures NodesLines(o, []) == [] && Trim(Unlines([])) == "" && SharedAll([]) == []
  {
  }

  /** Writer and reader together. */
  method ShareNodes(o: Outside, publicKey: Key -> Key, nodes: seq<Node>) returns (r: Result<seq<Node>, NodeFailure>)
    requires LawfulIP6(o) && LawfulPorts(o) && AllWritable(nodes)
    ensures r.Ok? <==> AllAcceptable(publicKey, nodes) && Fitting(NodesLines(o, nodes))
    ensures r.Ok? ==> r.value == SharedAll(nodes)
  {
    hide LawfulIP6, LawfulPorts, AllWritable, AllAcceptable, Fitting, NodesLines, NodesIn, SharedAll;
    var text := EncodeNodes(o, nodes);
    NodesRoundTrip(o, publicKey, nodes);
    r := ParseNodes(o, publicKey, text);
  }

  // ----- what sharing changes -----

  /** The node without its preshared key. */
  function Bare(n: Node): Node {
    n.(presharedKey := ZeroKey())
  }

  function BareAll(nodes: seq<Node>): (r: seq<Node>)
    ensures |r| == |nodes|
  {
    if nodes == [] then [] else BareAll(nodes[..|nodes| - 1]) + [Bare(nodes[|nodes| - 1])]
  }

  /** No IPv4-mapped network or endpoint, and a keepalive of whole seconds. */
  predicate Faithful(n: Node) {
    && (forall j :: 0 <= j < |n.allowedIPs| ==> !MappedNet(n.allowedIPs[j]))
    && (n.endpoint.Some? ==> Unmap(n.endpoint.value.ip) == n.endpoint.value.ip)
    && n.keepalive % SECOND == 0
  }

  predicate AllFaithful(nodes: seq<Node>) {
    forall i :: 0 <= i < |nodes| ==> Faithful(nodes[i])
  }

  lemma {:induction false} SpokenExactly(nets: seq<Cidr>)
    ensures SpokenAll(nets) == nets <==> forall j :: 0 <= j < |nets| ==> !MappedNet(nets[j])
  {
    hide Mapped;
    if nets == [] {
    } else {
      var init, c := nets[..|nets| - 1], nets[|nets| - 1];
      SpokenExactly(init);
      assert nets == init + [c];
      assert SpokenAll(nets)[..|init|] == SpokenAll(init) && SpokenAll(nets)[|init|] == Spoken(c);
    }
  }

  lemma {:induction false} WholeExactly(d: int)
    ensures WholeSeconds(d) * SECOND == d <==> d % SECOND == 0
  {
  }

  /** A node is shared as it is, but for the preshared key, exactly when it is faithful. */
  lemma {:induction false} SharedExactly(n: Node)
    ensures Shared(n) == Bare(n) <==> Faithful(n)
  {
    hide Unmap, WholeSeconds, SpokenAll, MappedNet;
    SpokenExactly(n.allowedIPs);
    WholeExactly(n.keepalive);
  }

  /** So are all nodes of a list. */
  lemma {:induction false} SharedAllExactly(nodes: seq<Node>)
    ensures SharedAll(nodes) == BareAll(nodes) <==> AllFaithful(nodes)
  {
    hide Shared, Bare, Faithful;
    if nodes == [] {
    } else {
      var init, n := nodes[..|nodes| - 1], nodes[|nodes| - 1];
      SharedAllExactly(init);
      SharedExactly(n);
      assert forall i :: 0 <= i < |init| ==> init[i] == nodes[i];
      assert SharedAll(nodes)[..|init|] == SharedAll(init) && SharedAll(nodes)[|init|] == Shared(n);
      assert BareAll(nodes)[..|init|] == BareAll(init) && BareAll(nodes)[|init|] == Bare(n);
    }
  }

  /** A node with the network ::ffff:10.0.0.0/104. */
  function MappedNode(k: Key): Node {
    Node("", k, None, ZeroKey(), [Cidr6([0, 0, 0, 0, 0, 0, 0, 0, 0, 0, 255, 255, 10, 0, 0, 0], 104)], None, 0)
  }

  /** It is shared with the network 10.0.0.0/8. */
  lemma {:induction false} MappedNodeChanges(k: Key)
    ensures Shared(MappedNode(k)).allowedIPs == [Cidr4([10, 0, 0, 0], 8)]
              && Shared(MappedNode(k)) != Bare(MappedNode(k))
  {
    var nets := MappedNode(k).allowedIPs;
    assert nets[..0] == [] && SpokenAll(nets) == SpokenAll([]) + [Spoken(nets[0])];
    assert nets[0].addr6[12..] == [10, 0, 0, 0];
  }
}
