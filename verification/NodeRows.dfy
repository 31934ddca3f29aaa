/**
 * The text of a gist as somebody may write it: nodes with their fields in any order, comments,
 * and lines that do not belong there. Its parser is proved to be an interpreter of such lines
 * that works on their values.
 */
module NodeRows {
  import opened Wrappers
  import opened WgTypes
  import opened Text
  import opened Numbers
  import opened Base64
  import opened Addresses
  import opened UserParse
  import opened UserRoundTrip
  import opened ConfigText
  import opened ConfigSpells
  import opened Nodes
  import opened NodeText
  import opened NodeRoundTrip

  // ----- what is written -----

  datatype NodeSetting =
    | NameIs(name: string)
    | PublicKeyIs(key: Key)
    | PrivateKeyIs(key: Key)
    | PresharedKeyIs(key: Key)
    | NetsAre(nets: seq<Cidr>)
    | EndpointIs(endpoint: UDPAddr)
    | KeepaliveIs(seconds: nat)

  /** A line; the last two are lines that no text may have. */
  datatype Row =
    | PeerRow
    | SettingRow(setting: NodeSetting)
    | RemarkRow(comment: string)
    | UnknownRow(title: string, value: string)
    | LoneRow(text: string)

  function TitleOf(s: NodeSetting): string {
    match s
    case NameIs(_) => "Name"
    case PublicKeyIs(_) => "PublicKey"
    case PrivateKeyIs(_) => "PrivateKey"
    case PresharedKeyIs(_) => "PresharedKey"
    case NetsAre(_) => "AllowedIPs"
    case EndpointIs(_) => "Endpoint"
    case KeepaliveIs(_) => "PersistentKeepalive"
  }

  function ValueText(o: Outside, s: NodeSetting): string {
    match s
    case NameIs(name) => name
    case PublicKeyIs(k) => KeyText(k)
    case PrivateKeyIs(k) => KeyText(k)
    case PresharedKeyIs(k) => KeyText(k)
    case NetsAre(nets) => Join(Values(o, nets), ", ")
    case EndpointIs(e) => FormatEndpoint(o, e)
    case KeepaliveIs(n) => Format(n, 10)
  }

  predicate SettingWritten(s: NodeSetting) {
    match s
    case NameIs(name) => Trimmed(name) && Absent(name, '\n')
    case NetsAre(nets) => nets != []
    case EndpointIs(e) => EndpointSendable(e)
    case _ => true
  }

  ghost predicate Written(row: Row) {
    match row
    case PeerRow => true
    case SettingRow(s) => SettingWritten(s)
    case RemarkRow(comment) => comment == "" || (comment[0] == '#' && Absent(comment, '\n'))
    case UnknownRow(title, value) =>
      Label(title) && Plainly(value) && forall s: NodeSetting :: TitleOf(s) != title
    case LoneRow(text) => Label(text)
  }

  function RowText(o: Outside, row: Row): string {
    match row
    case PeerRow => "[Peer]"
    case SettingRow(s) => TitleOf(s) + " = " + ValueText(o, s)
    case RemarkRow(comment) => comment
    case UnknownRow(title, value) => title + " = " + value
    case LoneRow(text) => text
  }

  // ----- what it says -----

  /** The node read so far joins the others if it has a public key, and the one of its private key. */
  function Closed(publicKey: Key -> Key, d: Draft): Result<seq<Node>, NodeError> {
    match d.node
    case None => Ok(d.nodes)
    case Some(n) =>
      if !d.hasPublicKey then Err(NoPublicKey)
      else if n.privateKey.Some? && publicKey(n.privateKey.value) != n.publicKey then Err(WrongPrivateKey)
      else Ok(d.nodes + [n])
  }

  function Set(n: Node, s: NodeSetting): Option<Node> {
    match s
    case NameIs(name) => Some(n.(name := name))
    case PublicKeyIs(k) => Some(n.(publicKey := k))
    case PrivateKeyIs(k) => Some(n.(privateKey := Some(k)))
    case PresharedKeyIs(k) => Some(n.(presharedKey := k))
    case NetsAre(nets) => Some(n.(allowedIPs := n.allowedIPs + SpokenAll(nets)))
    case EndpointIs(e) => Some(n.(endpoint := Some(UDPAddr(Unmap(e.ip), e.port, e.zone))))
    case KeepaliveIs(n') => if n' <= 65535 then Some(n.(keepalive := n' * 1_000_000_000)) else None
  }

  function Next(publicKey: Key -> Key, d: Draft, row: Row): Result<Draft, NodeError> {
    match row
    case RemarkRow(_) => Ok(d)
    case PeerRow =>
      (match Closed(publicKey, d)
       case Ok(nodes) => Ok(Draft(nodes, Some(Node("", ZeroKey(), None, ZeroKey(), [], None, 0)), false))
       case Err(e) => Err(e))
    case SettingRow(s) =>
      if d.node.None? then Err(OutsideNode)
      else
        (match Set(d.node.value, s)
         case Some(n) => Ok(Draft(d.nodes, Some(n), d.hasPublicKey || s.PublicKeyIs?))
         case None => Err(BadField))
    case UnknownRow(_, _) => Err(if d.node.None? then OutsideNode else BadField)
    case LoneRow(_) => Err(if d.node.None? then OutsideNode else NoField)
  }

  function Run(publicKey: Key -> Key, rows: seq<Row>): Result<Draft, NodeFailure>
  {
    if rows == [] then Ok(Draft([], None, false))
    else
      match Run(publicKey, rows[..|rows| - 1])
      case Err(e) => Err(e)
      case Ok(d) =>
        match Next(publicKey, d, rows[|rows| - 1])
        case Ok(next) => Ok(next)
        case Err(e) => Err(AtLine(|rows|, e))
  }

  /** How many rows come before the first line of 65536 bytes or more. */
  function Short(o: Outside, rows: seq<Row>): (n: nat)
    ensures n <= |rows|
    ensures forall i :: 0 <= i < n ==> ByteLength(RowText(o, rows[i])) < 65536
    ensures n < |rows| ==> ByteLength(RowText(o, rows[n])) >= 65536
  {
    if rows == [] || ByteLength(RowText(o, rows[0])) >= 65536 then 0 else 1 + Short(o, rows[1..])
  }

  function Interpreted(o: Outside, publicKey: Key -> Key, rows: seq<Row>): Result<seq<Node>, NodeFailure> {
    match Run(publicKey, rows[..Short(o, rows)])
    case Err(e) => Err(e)
    case Ok(d) =>
      if Short(o, rows) < |rows| then Err(LongLine)
      else
        match Closed(publicKey, d)
        case Ok(nodes) => Ok(nodes)
        case Err(e) => Err(AtEnd(e))
  }

  // ----- lines -----

  lemma {:induction false} Titles(s: NodeSetting)
    ensures Label(TitleOf(s))
  {
    Labels();
    MoreLabels();
    assert Label("PresharedKey");
  }

  function FieldFor(s: NodeSetting): NodeField {
    match s
    case NameIs(_) => NameField
    case PublicKeyIs(_) => PublicKeyField
    case PrivateKeyIs(_) => PrivateKeyField
    case PresharedKeyIs(_) => PresharedKeyField
    case NetsAre(_) => NetsField
    case EndpointIs(_) => EndpointField
    case KeepaliveIs(_) => KeepaliveField
  }

  lemma {:induction false} FieldIs(s: NodeSetting)
    ensures FieldNamed(TitleOf(s)) == FieldFor(s)
  {
    Fields();
    MoreFields();
    SecretField();
  }

  lemma {:induction false} SecretField()
    ensures FieldNamed("PresharedKey") == PresharedKeyField
  {
  }

  lemma {:induction false} FieldWord(a: string, b: string)
    requires FieldNamed(a) == FieldNamed(b) != NotAField
    ensures a == b
  {
  }

  /** Some setting of a field. */
  function SettingFor(field: NodeField): NodeSetting {
    match field
    case NameField => NameIs("")
    case PublicKeyField => PublicKeyIs(ZeroKey())
    case PrivateKeyField => PrivateKeyIs(ZeroKey())
    case PresharedKeyField => PresharedKeyIs(ZeroKey())
    case NetsField => NetsAre([])
    case EndpointField => EndpointIs(UDPAddr(IP4([0, 0, 0, 0]), 0, ""))
    case _ => KeepaliveIs(0)
  }

  lemma {:induction false} NotNamed(title: string)
    requires forall s: NodeSetting :: TitleOf(s) != title
    ensures FieldNamed(title) == NotAField
  {
    hide FieldNamed, TitleOf;
    if FieldNamed(title) != NotAField {
      var s := SettingFor(FieldNamed(title));
      FieldIs(s);
      FieldWord(title, TitleOf(s));
    }
  }

  lemma {:induction false} ValuePlainly(o: Outside, s: NodeSetting)
    requires LawfulIP6(o) && LawfulPorts(o) && SettingWritten(s)
    ensures Plainly(ValueText(o, s))
  {
    hide KeyText, FormatEndpoint, Format, Join, Values, LawfulIP6, LawfulPorts, Plainly, ReadKey, EndpointSendable;
    match s {
      case NameIs(name) =>
        assert Plainly(name) by {
          NamePlainly(name);
        }
      case PublicKeyIs(k) =>
        KeyPlainly(k);
      case PrivateKeyIs(k) =>
        KeyPlainly(k);
      case PresharedKeyIs(k) =>
        KeyPlainly(k);
      case NetsAre(nets) =>
        NetsPlainly(o, nets);
      case EndpointIs(e) =>
        EndpointShared(o, e);
      case KeepaliveIs(n) =>
        SecondsRead(n);
    }
  }

  lemma {:induction false} NamePlainly(name: string)
    requires Trimmed(name) && Absent(name, '\n')
    ensures Plainly(name)
  {
  }

  function RowSays(o: Outside, row: Row): NodeLine {
    match row
    case PeerRow => NodeStart
    case SettingRow(s) => NodeText.FieldLine(FieldFor(s), ValueText(o, s))
    case RemarkRow(_) => Ignored
    case UnknownRow(_, value) => NodeText.FieldLine(NotAField, value)
    case LoneRow(_) => Garbage
  }

  lemma {:induction false} LoneSays(text: string)
    requires Label(text)
    ensures SaysOf(Trim(DropCR(text))) == Garbage
  {
    TokenStart(text);
    TrimTrimmed(text);
    FirstNone(text, '=');
  }

  lemma {:induction false} RemarkSays(comment: string)
    requires comment == "" || comment[0] == '#'
    ensures SaysOf(Trim(DropCR(comment))) == Ignored
  {
    if comment == "" {
      TrimTrimmed("");
    } else {
      var line := DropCR(comment);
      assert line != "" && line[0] == '#';
      TrimKeepsStart(line);
    }
  }

  lemma {:induction false} RowIs(o: Outside, row: Row)
    requires LawfulIP6(o) && LawfulPorts(o) && Written(row)
    ensures SaysOf(Trim(DropCR(RowText(o, row)))) == RowSays(o, row)
  {
    hide SaysOf, Trim, DropCR, ValueText, TitleOf, FieldNamed, LawfulIP6, LawfulPorts, Label, Plainly, SettingWritten,
      FieldFor;
    match row {
      case PeerRow =>
        SaysOne("[Peer]");
        FixedLines();
      case SettingRow(s) =>
        Titles(s);
        ValuePlainly(o, s);
        FieldSays(TitleOf(s), ValueText(o, s));
        FieldIs(s);
      case RemarkRow(comment) =>
        RemarkSays(comment);
      case UnknownRow(title, value) =>
        FieldSays(title, value);
        NotNamed(title);
      case LoneRow(text) =>
        LoneSays(text);
    }
  }

  lemma {:induction false} TextOnLine(o: Outside, row: Row)
    requires LawfulIP6(o) && LawfulPorts(o) && Written(row)
    ensures Absent(RowText(o, row), '\n')
  {
    hide ValueText, TitleOf, LawfulIP6, LawfulPorts, SettingWritten;
    match row {
      case PeerRow =>
      case SettingRow(s) =>
        Titles(s);
        ValuePlainly(o, s);
        TokenHasNoCR(TitleOf(s));
      case RemarkRow(comment) =>
      case UnknownRow(title, value) =>
        TokenHasNoCR(title);
      case LoneRow(text) =>
        TokenHasNoCR(text);
    }
  }

  // ----- one row -----

  lemma {:induction false} ClosedIsEnded(publicKey: Key -> Key, d: Draft)
    ensures Closed(publicKey, d) == Ended(publicKey, d)
  {
  }

  lemma {:induction false} SettingApplies(o: Outside, n: Node, s: NodeSetting)
    requires LawfulIP6(o) && LawfulPorts(o) && SettingWritten(s)
    ensures WithField(o, n, FieldFor(s), ValueText(o, s)) == Set(n, s)
  {
    hide KeyText, FormatEndpoint, Format, Join, Values, LawfulIP6, LawfulPorts, Plainly, ReadKey, EndpointSendable,
      ReadNets, Split, ReadUDPAddr, ParseUint, SpokenAll, Unmap;
    match s {
      case NameIs(name) =>
      case PublicKeyIs(k) =>
        KeyPlainly(k);
      case PrivateKeyIs(k) =>
        KeyPlainly(k);
      case PresharedKeyIs(k) =>
        KeyPlainly(k);
      case NetsAre(nets) =>
        NetsShared(o, nets);
      case EndpointIs(e) =>
        EndpointShared(o, e);
      case KeepaliveIs(n) =>
        SecondsRead(n);
    }
  }

  /** A row does what the interpreter does. */
  lemma {:induction false} RowStep(o: Outside, publicKey: Key -> Key, d: Draft, row: Row)
    requires LawfulIP6(o) && LawfulPorts(o) && Written(row)
    ensures Apply(o, publicKey, d, RowSays(o, row)) == Next(publicKey, d, row)
  {
    hide WithField, Set, ValueText, LawfulIP6, LawfulPorts, Closed, Ended, SettingWritten;
    ClosedIsEnded(publicKey, d);
    match row {
      case SettingRow(s) =>
        if d.node.Some? {
          SettingApplies(o, d.node.value, s);
        }
      case UnknownRow(_, value) =>
        if d.node.Some? {
          NothingSet(o, d.node.value, value);
        }
      case _ =>
    }
  }

  lemma {:induction false} NothingSet(o: Outside, n: Node, value: string)
    ensures WithField(o, n, NotAField, value) == None
  {
  }

  // ----- all rows -----

  function Texts(o: Outside, rows: seq<Row>): (r: seq<string>)
    ensures |r| == |rows|
  {
    if rows == [] then [] else Texts(o, rows[..|rows| - 1]) + [RowText(o, rows[|rows| - 1])]
  }

  ghost predicate AllWritten(rows: seq<Row>) {
    forall i :: 0 <= i < |rows| ==> Written(rows[i])
  }

  lemma {:induction false} TextsAt(o: Outside, rows: seq<Row>, i: nat)
    requires i < |rows|
    ensures Texts(o, rows)[i] == RowText(o, rows[i])
  {
    hide RowText;
    if i == |rows| - 1 {
    } else {
      TextsAt(o, rows[..|rows| - 1], i);
    }
  }

  lemma {:induction false} TextsPrefix(o: Outside, rows: seq<Row>, n: nat)
    requires n <= |rows|
    ensures Texts(o, rows)[..n] == Texts(o, rows[..n])
  {
    hide RowText, Texts;
    forall i | 0 <= i < n
      ensures Texts(o, rows)[..n][i] == Texts(o, rows[..n])[i]
    {
      TextsAt(o, rows, i);
      TextsAt(o, rows[..n], i);
    }
  }

  lemma {:induction false} TextsAreLines(o: Outside, rows: seq<Row>)
    requires LawfulIP6(o) && LawfulPorts(o) && AllWritten(rows)
    ensures AllAbsent(Texts(o, rows), '\n')
  {
    hide RowText, Written, LawfulIP6, LawfulPorts, Texts;
    forall i | 0 <= i < |rows|
      ensures Absent(Texts(o, rows)[i], '\n')
    {
      TextsAt(o, rows, i);
      TextOnLine(o, rows[i]);
    }
  }

  lemma {:induction false} RunAgrees(o: Outside, publicKey: Key -> Key, rows: seq<Row>)
    requires LawfulIP6(o) && LawfulPorts(o) && AllWritten(rows)
    ensures ApplyLines(o, publicKey, Texts(o, rows)) == Run(publicKey, rows)
  {
    hide SaysOf, Trim, DropCR, RowText, RowSays, Written, Apply, Next, LawfulIP6, LawfulPorts;
    if rows == [] {
    } else {
      var init, row := rows[..|rows| - 1], rows[|rows| - 1];
      RunAgrees(o, publicKey, init);
      assert Texts(o, rows)[..|init|] == Texts(o, init);
      RowIs(o, row);
      if d :| Run(publicKey, init) == Ok(d) {
        RowStep(o, publicKey, d, row);
      }
    }
  }

  lemma {:induction false} ShortIsDelivered(o: Outside, rows: seq<Row>)
    ensures Delivered(Texts(o, rows)) == Short(o, rows)
  {
    hide Texts, RowText, ByteLength;
    var n, m := Short(o, rows), Delivered(Texts(o, rows));
    if n < m {
      TextsAt(o, rows, n);
    } else if m < n {
      TextsAt(o, rows, m);
    }
  }

  // ----- texts of white space -----

  lemma {:induction false} TrimsAway(s: string, i: nat)
    requires Trim(s) == "" && i < |s|
    ensures Space(s[i])
  {
    hide Space;
    TrimLeftAway(s);
    if TrimLeft(s) != "" {
      TrimRightKeepsStart(TrimLeft(s));
      assert false;
    }
  }

  lemma {:induction false} TrimLeftAway(s: string)
    ensures TrimLeft(s) == "" ==> forall i :: 0 <= i < |s| ==> Space(s[i])
  {
    hide Space;
    if s == "" {
    } else {
      TrimLeftAway(s[1..]);
      assert forall i :: 1 <= i < |s| ==> s[i] == s[1..][i - 1];
    }
  }

  /** The first character of a line is in the text. */
  lemma {:induction false} CharInText(lines: seq<string>, i: nat)
    requires i < |lines| && lines[i] != ""
    ensures exists j :: 0 <= j < |Unlines(lines)| && Unlines(lines)[j] == lines[i][0]
  {
    var init, last := lines[..|lines| - 1], lines[|lines| - 1];
    if i == |init| {
      assert Unlines(lines)[|Unlines(init)|] == last[0];
    } else {
      CharInText(init, i);
      var j :| 0 <= j < |Unlines(init)| && Unlines(init)[j] == lines[i][0];
      assert Unlines(lines)[j] == Unlines(init)[j];
    }
  }

  lemma {:induction false} RowStarts(o: Outside, row: Row)
    requires Written(row) && row != RemarkRow("")
    ensures RowText(o, row) != "" && !Space(RowText(o, row)[0])
  {
    match row {
      case PeerRow =>
      case SettingRow(s) =>
        Titles(s);
        TokenStart(TitleOf(s));
      case RemarkRow(_) =>
      case UnknownRow(title, _) =>
        TokenStart(title);
      case LoneRow(text) =>
        TokenStart(text);
    }
  }

  lemma {:induction false} BlankRuns(publicKey: Key -> Key, rows: seq<Row>)
    requires forall i :: 0 <= i < |rows| ==> rows[i] == RemarkRow("")
    ensures Run(publicKey, rows) == Ok(Draft([], None, false))
  {
    if rows == [] {
    } else {
      BlankRuns(publicKey, rows[..|rows| - 1]);
    }
  }

  lemma {:induction false} AllBlank(o: Outside, rows: seq<Row>)
    requires AllWritten(rows) && Trim(Unlines(Texts(o, rows))) == ""
    ensures forall i :: 0 <= i < |rows| ==> rows[i] == RemarkRow("")
  {
    hide Trim, Unlines, Texts, RowText, Written, Space;
    forall i | 0 <= i < |rows|
      ensures rows[i] == RemarkRow("")
    {
      if rows[i] != RemarkRow("") {
        TextsAt(o, rows, i);
        RowStarts(o, rows[i]);
        CharInText(Texts(o, rows), i);
        var j :| 0 <= j < |Unlines(Texts(o, rows))| && Unlines(Texts(o, rows))[j] == RowText(o, rows[i])[0];
        TrimsAway(Unlines(Texts(o, rows)), j);
        assert false;
      }
    }
  }

  lemma {:induction false} BlankFits(o: Outside, rows: seq<Row>)
    requires forall i :: 0 <= i < |rows| ==> rows[i] == RemarkRow("")
    ensures Short(o, rows) == |rows|
  {
    assert ByteLength("") == 0;
  }

  /** However a text is written, reading it is running the interpreter on its rows. */
  lemma {:induction false} NodesAreInterpreted(o: Outside, publicKey: Key -> Key, rows: seq<Row>)
    requires LawfulIP6(o) && LawfulPorts(o) && AllWritten(rows)
    ensures NodesIn(o, publicKey, Unlines(Texts(o, rows))) == Interpreted(o, publicKey, rows)
  {
    hide LawfulIP6, LawfulPorts, Texts, Written, Trim, Lines, Unlines, Delivered, Short, ApplyLines, Run, Closed, Ended;
    var n := Short(o, rows);
    TextsAreLines(o, rows);
    LinesUnlines(Texts(o, rows));
    ShortIsDelivered(o, rows);
    TextsPrefix(o, rows, n);
    assert AllWritten(rows[..n]);
    RunAgrees(o, publicKey, rows[..n]);
    var run := Run(publicKey, rows[..n]);
    if run.Ok? {
      ClosedIsEnded(publicKey, run.value);
    }
    if Trim(Unlines(Texts(o, rows))) == "" {
      AllBlank(o, rows);
      BlankFits(o, rows);
      BlankRuns(publicKey, rows[..n]);
      NothingClosed(publicKey);
    }
  }

  lemma {:induction false} NothingClosed(publicKey: Key -> Key)
    ensures Closed(publicKey, Draft([], None, false)) == Ok([])
  {
  }
}
