/**
 * A wg(8) file as somebody may write it: sections and settings in any order, names of fields in
 * any case, comments, networks with and without signs. The parser is proved to be an
 * interpreter of such files that works on their values.
 */
module ConfigSettings {
  import opened Wrappers
  import opened WgTypes
  import opened Seqs
  import opened Text
  import opened Numbers
  import opened Base64
  import opened Addresses
  import opened Endpoints
  import opened ConfigLines
  import opened ConfigMeaning
  import opened ConfigParse
  import opened ConfigText
  import opened ConfigSpells
  import opened Showconf

  // ----- what is written -----

  datatype Assignment =
    | PrivateKeyIs(key: Key)
    | ListenPortIs(port: nat)
    | MarkIs(mark: nat)
    | HexMarkIs(mark: nat)
    | MarkOff(off: string)
    | PublicKeyIs(key: Key)
    | PresharedKeyIs(key: Key)
    | EndpointIs(endpoint: UDPAddr)
    | NetworksAre(entries: seq<Entry>)
    | KeepaliveIs(seconds: nat)
    | KeepaliveOff(off: string)

  /** A line of the file; the last three are lines that no file may have. */
  datatype Row =
    | InterfaceRow(title: string)
    | PeerRow(title: string)
    | SettingRow(name: string, setting: Assignment, comment: string)
    | NameRow(peer: string)
    | RemarkRow(blanks: string, comment: string)
    | UnknownRow(name: string, value: string)
    | StrangeRow(title: string)
    | LoneRow(text: string)

  predicate Letter(c: char) {
    'a' <= c <= 'z' || 'A' <= c <= 'Z'
  }

  predicate Letters(s: string) {
    s != "" && forall i :: 0 <= i < |s| ==> Letter(s[i])
  }

  /** The same word but for the case of its letters, 32 apart in ASCII. */
  predicate SameWord(a: string, b: string) {
    Letters(a) && |a| == |b| && forall i :: 0 <= i < |a| ==> (a[i] as int - b[i] as int) % 32 == 0
  }

  function FieldTitle(setting: Assignment): string {
    match setting
    case PrivateKeyIs(_) => "PrivateKey"
    case ListenPortIs(_) => "ListenPort"
    case MarkIs(_) => "FwMark"
    case HexMarkIs(_) => "FwMark"
    case MarkOff(_) => "FwMark"
    case PublicKeyIs(_) => "PublicKey"
    case PresharedKeyIs(_) => "PresharedKey"
    case EndpointIs(_) => "Endpoint"
    case NetworksAre(_) => "AllowedIPs"
    case KeepaliveIs(_) => "PersistentKeepalive"
    case KeepaliveOff(_) => "PersistentKeepalive"
  }

  function ValueText(o: Outside, setting: Assignment): string {
    match setting
    case PrivateKeyIs(k) => KeyText(k)
    case ListenPortIs(n) => Format(n, 10)
    case MarkIs(n) => Format(n, 10)
    case HexMarkIs(n) => "0x" + Format(n, 16)
    case MarkOff(off) => off
    case PublicKeyIs(k) => KeyText(k)
    case PresharedKeyIs(k) => KeyText(k)
    case EndpointIs(e) => FormatEndpoint(o, e)
    case NetworksAre(es) => Join(EntryTexts(o, es), ", ")
    case KeepaliveIs(n) => Format(n, 10)
    case KeepaliveOff(off) => off
  }

  predicate ValueWritten(setting: Assignment) {
    match setting
    case MarkOff(off) => SameWord(off, "off")
    case KeepaliveOff(off) => SameWord(off, "off")
    case EndpointIs(e) => ZoneSafe(e.zone) && 0 <= e.port <= 65535
    case _ => true
  }

  /** Nothing, or a comment up to the end of the line. */
  predicate IsComment(s: string) {
    s == "" || (s[0] == '#' && Absent(s, '\n') && Absent(s, '\r'))
  }

  predicate Spaces(s: string) {
    forall i :: 0 <= i < |s| ==> s[i] == ' ' || s[i] == '\t'
  }

  ghost predicate Written(row: Row) {
    match row
    case InterfaceRow(title) => SameWord(title, "interface")
    case PeerRow(title) => SameWord(title, "peer")
    case SettingRow(name, setting, comment) =>
      SameWord(name, FieldTitle(setting)) && ValueWritten(setting) && IsComment(comment)
    case NameRow(_) => true
    case RemarkRow(blanks, comment) =>
      Spaces(blanks) && IsComment(comment) && !("# wgctrl-peer-name" <= comment)
    case UnknownRow(name, value) => Letters(name) && Token(value)
      && forall s: Assignment :: !SameWord(name, FieldTitle(s))
    case StrangeRow(title) => Letters(title) && !SameWord(title, "interface") && !SameWord(title, "peer")
    case LoneRow(text) => Letters(text)
  }

  function RowText(o: Outside, row: Row): string {
    match row
    case InterfaceRow(title) => "[" + title + "]"
    case PeerRow(title) => "[" + title + "]"
    case SettingRow(name, setting, comment) => name + " = " + ValueText(o, setting) + comment
    case NameRow(name) => "# wgctrl-peer-name = " + o.writeName(name)
    case RemarkRow(blanks, comment) => blanks + comment
    case UnknownRow(name, value) => name + " = " + value
    case StrangeRow(title) => "[" + title + "]"
    case LoneRow(text) => text
  }

  // ----- what it says -----

  predicate Sane(st: Progress) {
    |st.hasKey| == |st.cfg.peers| && (st.section == InPeer ==> st.cfg.peers != [])
  }

  /** A setting of the interface, if it is one and in range. */
  function InterfaceSet(cfg: Config, setting: Assignment): Option<Config> {
    match setting
    case PrivateKeyIs(k) => Some(cfg.(privateKey := Some(k)))
    case ListenPortIs(n) => if n <= 65535 then Some(cfg.(listenPort := Some(n))) else None
    case MarkIs(n) => if n <= 4294967295 then Some(cfg.(firewallMark := Some(n))) else None
    case HexMarkIs(n) => if n <= 4294967295 then Some(cfg.(firewallMark := Some(n))) else None
    case MarkOff(_) => Some(cfg.(firewallMark := Some(0)))
    case _ => None
  }

  /** A setting of a peer, if it is one and in range. */
  function PeerSet(o: Outside, p: PeerConfig, setting: Assignment): Option<PeerConfig> {
    match setting
    case PublicKeyIs(k) => Some(p.(publicKey := k))
    case PresharedKeyIs(k) => Some(p.(presharedKey := Some(k)))
    case EndpointIs(e) =>
      if Retries(o).Some? then Some(p.(endpoint := Some(UDPAddr(Unmap(e.ip), e.port, e.zone)))) else None
    case NetworksAre(es) =>
      Some(p.(operations := p.operations + OperationsFor(es), replaceAllowedIPs := !SomeChange(es)))
    case KeepaliveIs(n) => if n <= 65535 then Some(p.(keepalive := Some(n * 1_000_000_000))) else None
    case KeepaliveOff(_) => Some(p.(keepalive := Some(0)))
    case _ => None
  }

  /** A name of at most 255 bytes on one line. */
  predicate NameFits(name: string) {
    ByteLength(name) <= 255 && Absent(name, '\0') && Absent(name, '\r') && Absent(name, '\n')
  }

  function ReplaceLast<T>(s: seq<T>, x: T): (r: seq<T>)
    requires s != []
    ensures |r| == |s|
  {
    s[..|s| - 1] + [x]
  }

  /** The interpreter's state after one more line, or None where the line may not stand. */
  function Next(o: Outside, st: Progress, row: Row): (r: Option<Progress>)
    requires Sane(st)
    ensures r.Some? ==> Sane(r.value)
  {
    var cfg := st.cfg;
    match row
    case InterfaceRow(_) => Some(Progress(cfg, InInterface, st.hasKey, false))
    case PeerRow(_) =>
      var blank := PeerConfig(None, ZeroKey(), false, false, None, None, None, true, [], []);
      Some(Progress(WithEntries(cfg, cfg.peers + [blank]), InPeer, st.hasKey + [false], false))
    case RemarkRow(_, _) => Some(st)
    case NameRow(name) =>
      if st.section != InPeer || st.hasName || !NameFits(name) then None
      else
        var p := WithName(cfg.peers[|cfg.peers| - 1], Some(name));
        Some(Progress(WithEntries(cfg, ReplaceLast(cfg.peers, p)), InPeer, st.hasKey, true))
    case SettingRow(_, setting, _) =>
      if st.section == InInterface then
        match InterfaceSet(cfg, setting)
        case Some(c) => Some(Progress(WithEntries(c, cfg.peers), InInterface, st.hasKey, st.hasName))
        case None => None
      else if st.section == InPeer then
        match PeerSet(o, cfg.peers[|cfg.peers| - 1], setting)
        case Some(p) =>
          var keyed := setting.PublicKeyIs? || st.hasKey[|st.hasKey| - 1];
          Some(Progress(WithEntries(cfg, ReplaceLast(cfg.peers, p)), InPeer, ReplaceLast(st.hasKey, keyed), st.hasName))
        case None => None
      else None
    case _ => None
  }

  /** Setting a configuration starts from zero values and replaces all peers; adding starts from nothing. */
  function Begin(append: bool): Progress {
    var cfg := if append then Config(None, None, None, false, [])
      else Config(Some(ZeroKey()), Some(0), Some(0), true, []);
    Progress(cfg, Nowhere, [], false)
  }

  /** The state after all rows, or the number of the first that may not stand where it does. */
  function Run(o: Outside, rows: seq<Row>, append: bool): (r: Result<Progress, nat>)
    ensures r.Ok? ==> Sane(r.value)
  {
    if rows == [] then Ok(Begin(append))
    else
      match Run(o, rows[..|rows| - 1], append)
      case Err(n) => Err(n)
      case Ok(st) =>
        match Next(o, st, rows[|rows| - 1])
        case Some(next) => Ok(next)
        case None => Err(|rows|)
  }

  /** The number of the first peer without a public key. */
  function Missing(hasKey: seq<bool>): (r: Option<nat>)
    ensures r.Some? ==> 0 < r.value <= |hasKey|
    ensures r.None? <==> forall i :: 0 <= i < |hasKey| ==> hasKey[i]
    ensures r.Some? ==> !hasKey[r.value - 1] && forall i :: 0 <= i < r.value - 1 ==> hasKey[i]
  {
    if hasKey == [] then None
    else
      var earlier := Missing(hasKey[..|hasKey| - 1]);
      if earlier.Some? then earlier else if hasKey[|hasKey| - 1] then None else Some(|hasKey|)
  }

  /** How many rows come before the first line of a mebibyte or more. */
  function Delivered(o: Outside, rows: seq<Row>): (n: nat)
    ensures n <= |rows|
    ensures forall i :: 0 <= i < n ==> ByteLength(RowText(o, rows[i])) < 1048576
    ensures n < |rows| ==> ByteLength(RowText(o, rows[n])) >= 1048576
  {
    hide RowText, ByteLength;
    if rows == [] || ByteLength(RowText(o, rows[0])) >= 1048576 then 0 else 1 + Delivered(o, rows[1..])
  }

  function Interpreted(o: Outside, rows: seq<Row>, append: bool): Result<Config, ParseError> {
    var n := Delivered(o, rows);
    match Run(o, rows[..n], append)
    case Err(line) => Err(BadLineAt(line))
    case Ok(st) =>
      if n < |rows| then Err(LineTooLong)
      else
        match Missing(st.hasKey)
        case Some(peer) => Err(MissingPublicKey(peer))
        case None => Ok(st.cfg)
  }

  // ----- words -----

  lemma {:induction false} SameLetter(c: char, d: char)
    requires Letter(c) && Letter(d)
    ensures LowerChar(c) == LowerChar(d) <==> (c as int - d as int) % 32 == 0
  {
  }

  lemma {:induction false} SameLower(a: string, b: string)
    requires Letters(a) && Letters(b)
    ensures Lower(a) == Lower(b) <==> SameWord(a, b)
  {
    hide LowerChar, Letter;
    if SameWord(a, b) {
      forall i | 0 <= i < |a|
        ensures Lower(a)[i] == Lower(b)[i]
      {
        SameLetter(a[i], b[i]);
      }
    } else if Lower(a) == Lower(b) {
      assert |a| == |Lower(a)| == |b|;
      forall i | 0 <= i < |a|
        ensures (a[i] as int - b[i] as int) % 32 == 0
      {
        assert Lower(a)[i] == LowerChar(a[i]) && Lower(b)[i] == LowerChar(b[i]);
        SameLetter(a[i], b[i]);
      }
    }
  }

  lemma {:induction false} LettersName(a: string)
    requires Letters(a)
    ensures FieldName(a) && Absent(a, '\n') && Absent(a, '\r')
  {
    assert forall i :: 0 <= i < |a| ==> Letter(a[i]);
  }

  function FieldFor(setting: Assignment): Field {
    match setting
    case PrivateKeyIs(_) => PrivateKey
    case ListenPortIs(_) => ListenPort
    case MarkIs(_) => FwMark
    case HexMarkIs(_) => FwMark
    case MarkOff(_) => FwMark
    case PublicKeyIs(_) => PublicKey
    case PresharedKeyIs(_) => PresharedKey
    case EndpointIs(_) => Endpoint
    case NetworksAre(_) => AllowedIPs
    case KeepaliveIs(_) => PersistentKeepalive
    case KeepaliveOff(_) => PersistentKeepalive
  }

  lemma {:induction false} NamesAreLetters(s: Assignment)
    ensures Letters(FieldTitle(s))
  {
  }

  lemma {:induction false} LowerNames(s: Assignment)
    ensures FieldOf(Lower(FieldTitle(s))) == FieldFor(s)
  {
    hide FieldOf, Lower, FieldName;
    InterfaceFieldNames();
    KeyFieldNames();
    AddressFieldNames();
    KeepaliveFieldName();
  }

  lemma {:induction false} NameIsField(s: Assignment, name: string)
    requires SameWord(name, FieldTitle(s))
    ensures FieldOf(Lower(name)) == FieldFor(s)
  {
    hide FieldOf, Lower, FieldTitle, Letters, FieldFor;
    NamesAreLetters(s);
    SameLower(name, FieldTitle(s));
    LowerNames(s);
  }

  lemma {:induction false} NoOtherName(name: string, s: Assignment)
    requires Letters(name) && !SameWord(name, FieldTitle(s))
    ensures Lower(name) != Lower(FieldTitle(s))
  {
    hide Lower, SameWord, FieldTitle, Letters;
    NamesAreLetters(s);
    SameLower(name, FieldTitle(s));
  }

  lemma {:induction false} FieldWord(a: string, b: string)
    requires FieldOf(a) == FieldOf(b) != OtherField
    ensures a == b
  {
  }

  /** Some setting of a field. */
  function SettingFor(field: Field): Assignment {
    match field
    case PrivateKey => PrivateKeyIs(ZeroKey())
    case ListenPort => ListenPortIs(0)
    case FwMark => MarkIs(0)
    case PublicKey => PublicKeyIs(ZeroKey())
    case PresharedKey => PresharedKeyIs(ZeroKey())
    case Endpoint => EndpointIs(UDPAddr(IP4([0, 0, 0, 0]), 0, ""))
    case AllowedIPs => NetworksAre([])
    case _ => KeepaliveIs(0)
  }

  lemma {:induction false} NameIsUnknown(name: string)
    requires Letters(name) && forall s: Assignment :: !SameWord(name, FieldTitle(s))
    ensures FieldOf(Lower(name)) == OtherField
  {
    hide SameWord, Letters, FieldOf, Lower, FieldTitle;
    var field := FieldOf(Lower(name));
    if field != OtherField {
      var s := SettingFor(field);
      assert FieldFor(s) == field;
      LowerNames(s);
      FieldWord(Lower(name), Lower(FieldTitle(s)));
      NoOtherName(name, s);
    }
  }

  // ----- lines -----

  /** What the classification makes of a row. */
  function RowSays(o: Outside, row: Row): Line {
    match row
    case InterfaceRow(_) => InterfaceHeader
    case PeerRow(_) => PeerHeader
    case SettingRow(_, setting, _) => FieldLine(FieldFor(setting), Squeeze(ValueText(o, setting)))
    case NameRow(name) => NameLine(o.writeName(name))
    case RemarkRow(_, _) => BlankLine
    case UnknownRow(_, value) => FieldLine(OtherField, value)
    case StrangeRow(_) => BadLine
    case LoneRow(_) => BadLine
  }

  /** A comment behind a line changes nothing. */
  lemma {:induction false} CommentIgnored(line: string, comment: string)
    requires Absent(line, '#') && line != "" && !Space(line[0]) && IsComment(comment)
    ensures Classify(line + comment) == Classify(line)
  {
    hide NameComment, Squeeze, Space, SectionLine, FieldOf, Cut;
    NotAName(line);
    NotAName(line + comment);
    FirstNone(line, '#');
    Whole(line);
    if comment == "" {
      assert line + comment == line;
    } else {
      FirstAfter(line, '#', comment[1..]);
      assert line + ['#'] + comment[1..] == line + comment;
    }
  }

  lemma {:induction false} LettersToken(s: string)
    requires Letters(s)
    ensures Token(s) && s[0] != '[' && Absent(s, '=') && Absent(s, '#') && Absent(s, '\n') && Absent(s, '\r')
  {
    assert forall i :: 0 <= i < |s| ==> Letter(s[i]);
  }

  lemma {:induction false} SettingRowSays(o: Outside, name: string, setting: Assignment, comment: string)
    requires SameWord(name, FieldTitle(setting)) && IsComment(comment) && Absent(ValueText(o, setting), '#')
    ensures Classify(name + " = " + ValueText(o, setting) + comment) ==
            FieldLine(FieldFor(setting), Squeeze(ValueText(o, setting)))
  {
    hide Classify, Squeeze, FieldOf, Lower, ValueText, FieldFor, FieldTitle, IsComment;
    LettersToken(name);
    TokenStart(name);
    NameIsField(setting, name);
    var value := ValueText(o, setting);
    SettingSpells(name, value);
    var line := Setting(name, value);
    assert line[0] == name[0] && Absent(line, '#');
    CommentIgnored(line, comment);
  }

  lemma {:induction false} TitleSays(title: string)
    requires Letters(title)
    ensures Classify("[" + title + "]") ==
            if SameWord(title, "interface") then InterfaceHeader
            else if SameWord(title, "peer") then PeerHeader
            else BadLine
  {
    hide Classify, SameWord;
    LettersToken(title);
    BracketSpells(title);
    SameLower(title, "interface");
    SameLower(title, "peer");
    assert Lower("interface") == "interface" && Lower("peer") == "peer";
  }

  lemma {:induction false} BlanksGo(blanks: string, rest: string)
    requires Spaces(blanks)
    ensures TrimLeft(blanks + rest) == TrimLeft(rest) && Squeeze(blanks) == ""
    decreases |blanks|
  {
    if blanks == "" {
      assert blanks + rest == rest;
    } else {
      var s := blanks + rest;
      assert s[0] == blanks[0] && s[1..] == blanks[1..] + rest;
      BlanksGo(blanks[1..], rest);
      BlanksSqueezed(blanks);
    }
  }

  lemma {:induction false} BlanksSqueezed(blanks: string)
    requires Spaces(blanks)
    ensures Squeeze(blanks) == ""
  {
    if blanks == "" {
    } else {
      BlanksSqueezed(blanks[..|blanks| - 1]);
    }
  }

  lemma {:induction false} RemarkSays(blanks: string, comment: string)
    requires Written(RemarkRow(blanks, comment))
    ensures Classify(blanks + comment) == BlankLine
  {
    hide Classify;
    var line := blanks + comment;
    BlanksGo(blanks, comment);
    var trimmed := TrimLeft(comment);
    assert trimmed == comment;
    assert Trim(line) <= comment;
    assert !HasPrefix(Trim(line), NamePrefix());
    assert NameComment(line).None?;
    RemarkCleans(blanks, comment);
    NothingLeft(line);
  }

  lemma {:induction false} RemarkCleans(blanks: string, comment: string)
    requires Written(RemarkRow(blanks, comment))
    ensures Clean(blanks + comment) == ""
  {
    BlanksSqueezed(blanks);
    if comment == "" {
      assert blanks + comment == blanks;
      assert Absent(blanks, '#');
      FirstNone(blanks, '#');
      Whole(blanks);
    } else {
      assert Absent(blanks, '#');
      FirstAfter(blanks, '#', comment[1..]);
      assert blanks + ['#'] + comment[1..] == blanks + comment;
    }
  }

  lemma {:induction false} NothingLeft(line: string)
    requires NameComment(line).None? && Clean(line) == ""
    ensures Classify(line) == BlankLine
  {
  }

  lemma {:induction false} UnknownSays(name: string, value: string)
    requires Written(UnknownRow(name, value))
    ensures Classify(name + " = " + value) == FieldLine(OtherField, value)
  {
    hide Classify, FieldOf, Lower, FieldName, Letters;
    NameIsUnknown(name);
    LettersName(name);
    TokenSpells(name, value);
  }

  lemma {:induction false} LoneSays(text: string)
    requires Letters(text)
    ensures Classify(text) == BadLine
  {
    hide NameComment, SectionLine, FieldOf, Lower;
    LettersToken(text);
    TokenStart(text);
    NotAName(text);
    SqueezeToken(text);
    FirstNone(text, '#');
    FirstNone(text, '=');
    Whole(text);
  }

  // ----- values -----

  lemma {:induction false} OffReads(off: string)
    requires SameWord(off, "off")
    ensures IsOff(off) && Token(off)
  {
    LettersToken(off);
    SameLower(off, "off");
    assert Lower("off") == "off";
  }

  lemma {:induction false} PortReads(n: nat)
    ensures var v := Format(n, 10);
            && Token(v) && ReadPort(v) == (if n <= 65535 then Some(n) else None) && ReadKeepalive(v) == ReadPort(v)
  {
    hide Format, IsOff;
    ParseFormat(n, 10, 0xFFFF);
    FormatPlain(n, 10);
    NotOff(Format(n, 10));
  }

  lemma {:induction false} MarksRead(n: nat)
    ensures var v := Format(n, 10);
            Token(v) && ReadMark(v) == if n <= 4294967295 then Some(n) else None
    ensures var v := "0x" + Format(n, 16);
            Token(v) && ReadMark(v) == if n <= 4294967295 then Some(n) else None
  {
    hide Format, IsOff;
    ParseFormat(n, 10, 0xFFFF_FFFF);
    FormatPlain(n, 10);
    NotOff(Format(n, 10));
    ParseFormat(n, 16, 0xFFFF_FFFF);
    var v := "0x" + Format(n, 16);
    assert v[0] == '0' && v[2..] == Format(n, 16) && v[..2] == "0x";
    NotOff(v);
  }

  /** Values but those of AllowedIPs have no blanks. */
  lemma {:induction false} ValueIsToken(o: Outside, s: Assignment)
    requires Lawful(o) && ValueWritten(s) && !s.NetworksAre?
    ensures Token(ValueText(o, s))
  {
    hide LawfulIP6, LawfulPorts, LawfulNames, KeyText, Format, FormatEndpoint, ReadPort, ReadKeepalive, ReadMark,
      ReadCanonicalKey;
    match s {
      case PrivateKeyIs(k) =>
        KeyReads(k);
      case ListenPortIs(n) =>
        PortReads(n);
      case MarkIs(n) =>
        MarksRead(n);
      case HexMarkIs(n) =>
        MarksRead(n);
      case MarkOff(off) =>
        OffReads(off);
      case PublicKeyIs(k) =>
        KeyReads(k);
      case PresharedKeyIs(k) =>
        KeyReads(k);
      case EndpointIs(e) =>
        EndpointText(o, e);
      case NetworksAre(es) =>
        assert false;
      case KeepaliveIs(n) =>
        PortReads(n);
      case KeepaliveOff(off) =>
        OffReads(off);
    }
  }

  lemma {:induction false} ValueOnLine(o: Outside, s: Assignment)
    requires Lawful(o) && ValueWritten(s)
    ensures var v := ValueText(o, s);
            && Absent(v, '#') && Absent(v, '\n') && Absent(v, '\r')
            && (!s.NetworksAre? ==> Squeeze(v) == v)
  {
    hide LawfulIP6, LawfulPorts, LawfulNames, Squeeze, EntryTexts, Join, OperationsFor, ReadAllowedIPs, Incremental,
      ValueWritten;
    if s.NetworksAre? {
      OperationsAreRead(o, s.entries);
    } else {
      ValueIsToken(o, s);
      SqueezeToken(ValueText(o, s));
      TokenHasNoCR(ValueText(o, s));
    }
  }

  // ----- one setting -----

  function WithInterfaceField(cfg: Config, field: Field, value: string): Config {
    match field
    case PrivateKey => cfg.(privateKey := ReadCanonicalKey(value))
    case ListenPort => cfg.(listenPort := Some(ReadPort(value).GetOr(0)))
    case FwMark => cfg.(firewallMark := Some(ReadMark(value).GetOr(0)))
    case _ => cfg
  }

  lemma {:induction false} ConfigFromField(fields: seq<Line>, peers: seq<PeerConfig>, append: bool, field: Field,
      value: string)
    requires InterfaceFieldOk(field, value)
    ensures ConfigFrom(fields + [FieldLine(field, value)], peers, append) ==
            WithInterfaceField(ConfigFrom(fields, peers, append), field, value)
  {
    hide ReadCanonicalKey, ReadPort, ReadMark, LastValue;
    LastValueSnoc(fields, FieldLine(field, value), PrivateKey);
    LastValueSnoc(fields, FieldLine(field, value), ListenPort);
    LastValueSnoc(fields, FieldLine(field, value), FwMark);
  }

  /** A written setting of the interface is accepted where it is one, and sets what it says. */
  lemma {:induction false} InterfaceSettingReads(o: Outside, cfg: Config, s: Assignment)
    requires Lawful(o) && ValueWritten(s)
    ensures var field, v := FieldFor(s), Squeeze(ValueText(o, s));
            && (InterfaceFieldOk(field, v) <==> InterfaceSet(cfg, s).Some?)
            && (InterfaceSet(cfg, s).Some? ==> WithInterfaceField(cfg, field, v) == InterfaceSet(cfg, s).value)
  {
    hide LawfulIP6, LawfulPorts, LawfulNames, KeyText, Format, Squeeze, ReadPort, ReadCanonicalKey, ParseUint;
    ValueOnLine(o, s);
    match s {
      case PrivateKeyIs(k) =>
        KeyReads(k);
      case ListenPortIs(n) =>
        PortReads(n);
      case MarkIs(n) =>
        MarksRead(n);
      case HexMarkIs(n) =>
        MarksRead(n);
      case MarkOff(off) =>
        OffReads(off);
      case _ =>
    }
  }

  lemma {:induction false} PeerSettingReads(o: Outside, p: PeerConfig, s: Assignment)
    requires Lawful(o) && ValueWritten(s)
    ensures var field, v := FieldFor(s), Squeeze(ValueText(o, s));
            && (PeerFieldOk(o, field, v) <==> PeerSet(o, p, s).Some?)
            && (PeerSet(o, p, s).Some? ==> WithField(o, p, field, v) == PeerSet(o, p, s).value)
  {
    hide LawfulIP6, LawfulPorts, LawfulNames, KeyText, Format, Squeeze, ReadPort, ReadCanonicalKey, ParseUint,
      ReadAllowedIPs, Incremental, Join, EntryTexts, OperationsFor, FormatEndpoint, ReadEndpoint, Unknown, Retries;
    ValueOnLine(o, s);
    match s {
      case PublicKeyIs(k) =>
        KeyReads(k);
      case PresharedKeyIs(k) =>
        KeyReads(k);
      case EndpointIs(e) =>
        if Retries(o).Some? {
          EndpointRoundTrip(o, e);
        } else {
          NoRetries(o, FormatEndpoint(o, e));
        }
      case NetworksAre(es) =>
        OperationsAreRead(o, es);
      case KeepaliveIs(n) =>
        PortReads(n);
      case KeepaliveOff(off) =>
        OffReads(off);
      case _ =>
    }
  }

  lemma {:induction false} NoRetries(o: Outside, value: string)
    requires Retries(o).None?
    ensures ReadEndpoint(o, value).None?
  {
  }

  // ----- one row -----

  lemma {:induction false} TitleOnLine(title: string)
    requires Letters(title)
    ensures OneLine("[" + title + "]")
  {
    hide Letters;
    LettersToken(title);
  }

  lemma {:induction false} SettingOnLine(o: Outside, name: string, setting: Assignment, comment: string)
    requires Lawful(o) && Written(SettingRow(name, setting, comment))
    ensures OneLine(name + " = " + ValueText(o, setting) + comment)
    ensures Absent(ValueText(o, setting), '#')
  {
    hide Letters, FieldTitle, ValueText, ValueWritten, Lawful, Squeeze;
    LettersToken(name);
    ValueOnLine(o, setting);
  }

  lemma {:induction false} NameOnLine(o: Outside, name: string)
    requires Lawful(o)
    ensures OneLine("# wgctrl-peer-name = " + o.writeName(name))
    ensures Classify("# wgctrl-peer-name = " + o.writeName(name)) == NameLine(o.writeName(name))
  {
    hide Lawful, Classify;
    NameIsQuoted(o, name);
    NameSpells(o.writeName(name));
    NameTextFits(o.writeName(name));
    assert NamePrefix() + " = " == "# wgctrl-peer-name = ";
  }

  lemma {:induction false} UnknownOnLine(name: string, value: string)
    requires Written(UnknownRow(name, value))
    ensures OneLine(name + " = " + value)
  {
    hide Letters;
    LettersToken(name);
    TokenHasNoCR(value);
  }

  lemma {:induction false} RemarkOnLine(blanks: string, comment: string)
    requires Written(RemarkRow(blanks, comment))
    ensures OneLine(blanks + comment)
  {
  }

  predicate OneLine(s: string) {
    Absent(s, '\n') && Absent(s, '\r')
  }

  /** A row is one line, and is classified as what it says. */
  lemma {:induction false} RowClassified(o: Outside, row: Row)
    requires Lawful(o) && Written(row)
    ensures OneLine(RowText(o, row)) && Classify(RowText(o, row)) == RowSays(o, row)
  {
    hide Classify, Squeeze, ValueText, FieldFor, Lawful, ValueWritten, FieldTitle, OneLine, Letters, IsComment;
    match row {
      case InterfaceRow(title) =>
        TitleSays(title);
        TitleOnLine(title);
      case PeerRow(title) =>
        PeerIsNot(title);
        TitleSays(title);
        TitleOnLine(title);
      case SettingRow(name, setting, comment) =>
        SettingOnLine(o, name, setting, comment);
        SettingRowSays(o, name, setting, comment);
      case NameRow(name) =>
        NameOnLine(o, name);
      case RemarkRow(blanks, comment) =>
        RemarkSays(blanks, comment);
        RemarkOnLine(blanks, comment);
      case UnknownRow(name, value) =>
        UnknownSays(name, value);
        UnknownOnLine(name, value);
      case StrangeRow(title) =>
        TitleSays(title);
        TitleOnLine(title);
      case LoneRow(text) =>
        LoneSays(text);
        LoneOnLine(text);
    }
  }

  lemma {:induction false} LoneOnLine(text: string)
    requires Letters(text)
    ensures OneLine(text)
  {
    LettersToken(text);
  }

  lemma {:induction false} NameIsQuoted(o: Outside, name: string)
    requires Lawful(o)
    ensures Quoted(o.writeName(name)) && o.readName(o.writeName(name)) == Some(name)
  {
  }

  lemma {:induction false} PeerIsNot(title: string)
    requires SameWord(title, "peer")
    ensures !SameWord(title, "interface")
  {
  }

  // ----- one more row -----

  lemma {:induction false} HeaderStep(o: Outside, ls: seq<Line>, st: Progress, append: bool, row: Row)
    requires After(st, o, ls, append) && Sane(st) && (row.InterfaceRow? || row.PeerRow?)
    ensures After(Next(o, st, row).value, o, ls + [RowSays(o, row)], append)
  {
    hide PeerOf, ConfigFrom, PeersOf, Keyed;
    SectionsSnoc(ls, RowSays(o, row));
    if row.PeerRow? {
      PeersSnoc(o, PeerBlocks(ls), []);
      ConfigFromPeers(InterfaceLines(ls), st.cfg.peers, append);
      EmptySection(o);
    }
  }

  lemma {:induction false} InterfaceStep(o: Outside, ls: seq<Line>, st: Progress, append: bool, row: Row)
    requires After(st, o, ls, append) && Sane(st) && st.section == InInterface && row.SettingRow?
    requires Lawful(o) && ValueWritten(row.setting)
    ensures LineOk(o, ls, RowSays(o, row)) <==> Next(o, st, row).Some?
    ensures Next(o, st, row).Some? ==> After(Next(o, st, row).value, o, ls + [RowSays(o, row)], append)
  {
    hide PeerOf, ConfigFrom, PeersOf, Keyed, InterfaceFieldOk, PeerFieldOk, Squeeze, ValueText, FieldFor,
      ValueWritten, LawfulIP6, LawfulNames, LawfulPorts, InterfaceSet, WithInterfaceField;
    var field, v := FieldFor(row.setting), Squeeze(ValueText(o, row.setting));
    SectionsSnoc(ls, RowSays(o, row));
    InterfaceSettingReads(o, st.cfg, row.setting);
    if InterfaceFieldOk(field, v) {
      ConfigFromField(InterfaceLines(ls), st.cfg.peers, append, field, v);
      ConfigFromPeers(InterfaceLines(ls) + [RowSays(o, row)], st.cfg.peers, append);
    }
  }

  lemma {:induction false} PeerStep(o: Outside, ls: seq<Line>, st: Progress, append: bool, row: Row)
    requires After(st, o, ls, append) && Sane(st) && st.section == InPeer && row.SettingRow?
    requires Lawful(o) && ValueWritten(row.setting)
    ensures LineOk(o, ls, RowSays(o, row)) <==> Next(o, st, row).Some?
    ensures Next(o, st, row).Some? ==> After(Next(o, st, row).value, o, ls + [RowSays(o, row)], append)
  {
    hide PeerOf, ConfigFrom, PeersOf, Keyed, InterfaceFieldOk, PeerFieldOk, Squeeze, ValueText, ValueWritten,
      LawfulIP6, LawfulNames, LawfulPorts, PeerSet, WithField;
    var field, v := FieldFor(row.setting), Squeeze(ValueText(o, row.setting));
    var p := st.cfg.peers[|st.cfg.peers| - 1];
    PeerSettingReads(o, p, row.setting);
    if PeerFieldOk(o, field, v) {
      LastPeer(o, PeerBlocks(ls), RowSays(o, row));
      PeerOfField(o, Last(PeerBlocks(ls)), field, v);
      assert field == PublicKey <==> row.setting.PublicKeyIs?;
      InLastPeer(o, ls, st, append, RowSays(o, row), PeerSet(o, p, row.setting).value, Next(o, st, row).value);
    }
  }

  lemma {:induction false} NameIsRead(o: Outside, name: string)
    requires Lawful(o)
    ensures ReadPeerName(o, o.writeName(name)) == if NameFits(name) then Some(name) else None
  {
    hide Lawful, ByteLength;
    NameIsQuoted(o, name);
  }

  lemma {:induction false} NameStep(o: Outside, ls: seq<Line>, st: Progress, append: bool, row: Row)
    requires After(st, o, ls, append) && Sane(st) && row.NameRow? && Lawful(o)
    ensures LineOk(o, ls, RowSays(o, row)) <==> Next(o, st, row).Some?
    ensures Next(o, st, row).Some? ==> After(Next(o, st, row).value, o, ls + [RowSays(o, row)], append)
  {
    hide PeerOf, ConfigFrom, PeersOf, Keyed, Lawful, ReadPeerName, NameFits;
    var text := o.writeName(row.peer);
    NameIsRead(o, row.peer);
    if Next(o, st, row).Some? {
      LastPeer(o, PeerBlocks(ls), NameLine(text));
      PeerOfName(o, Last(PeerBlocks(ls)), text);
      var p := WithName(Last(st.cfg.peers), Some(row.peer));
      InLastPeer(o, ls, st, append, NameLine(text), p, Next(o, st, row).value);
    }
  }

  /** A row is accepted exactly when the interpreter accepts it, and does what the interpreter does. */
  lemma {:induction false} RowStep(o: Outside, ls: seq<Line>, st: Progress, append: bool, row: Row)
    requires After(st, o, ls, append) && Sane(st) && Lawful(o) && Written(row)
    ensures LineOk(o, ls, RowSays(o, row)) <==> Next(o, st, row).Some?
    ensures Next(o, st, row).Some? ==> After(Next(o, st, row).value, o, ls + [RowSays(o, row)], append)
  {
    hide After, Squeeze, ValueText, FieldFor, Lawful, ValueWritten, FieldTitle, Letters, IsComment;
    match row {
      case InterfaceRow(_) =>
        HeaderStep(o, ls, st, append, row);
      case PeerRow(_) =>
        HeaderStep(o, ls, st, append, row);
      case SettingRow(_, _, _) =>
        SectionAgrees(o, ls, st, append);
        if st.section == InInterface {
          InterfaceStep(o, ls, st, append, row);
        } else if st.section == InPeer {
          PeerStep(o, ls, st, append, row);
        }
      case NameRow(_) =>
        NameStep(o, ls, st, append, row);
      case RemarkRow(_, _) =>
        BlankLineKeeps(o, ls, st, append);
      case UnknownRow(_, _) =>
      case _ =>
    }
  }

  lemma {:induction false} SectionAgrees(o: Outside, ls: seq<Line>, st: Progress, append: bool)
    requires After(st, o, ls, append)
    ensures st.section == SectionOf(ls)
  {
  }

  // ----- all rows -----

  function Texts(o: Outside, rows: seq<Row>): (r: seq<string>)
    ensures |r| == |rows|
  {
    if rows == [] then [] else Texts(o, rows[..|rows| - 1]) + [RowText(o, rows[|rows| - 1])]
  }

  ghost predicate AllWritten(rows: seq<Row>) {
    forall i :: 0 <= i < |rows| ==> Written(rows[i])
  }

  lemma {:induction false} TextsAt(o: Outside, rows: seq<Row>, i: nat)
    requires i < |rows|
    ensures Texts(o, rows)[i] == RowText(o, rows[i])
  {
    hide RowText;
    if i == |rows| - 1 {
    } else {
      TextsAt(o, rows[..|rows| - 1], i);
    }
  }

  lemma {:induction false} TextsPrefix(o: Outside, rows: seq<Row>, n: nat)
    requires n <= |rows|
    ensures Texts(o, rows)[..n] == Texts(o, rows[..n])
  {
    hide RowText, Texts;
    forall i | 0 <= i < n
      ensures Texts(o, rows)[..n][i] == Texts(o, rows[..n])[i]
    {
      TextsAt(o, rows, i);
      TextsAt(o, rows[..n], i);
    }
  }

  lemma {:induction false} TextsAreLines(o: Outside, rows: seq<Row>)
    requires Lawful(o) && AllWritten(rows)
    ensures AllAbsent(Texts(o, rows), '\n')
  {
    hide RowText, Written, Lawful, Classify, RowSays, Texts;
    forall i | 0 <= i < |rows|
      ensures Absent(Texts(o, rows)[i], '\n')
    {
      TextsAt(o, rows, i);
      RowClassified(o, rows[i]);
    }
  }

  lemma {:induction false} RowLine(o: Outside, row: Row)
    requires Lawful(o) && Written(row)
    ensures Classify(DropCR(RowText(o, row))) == RowSays(o, row)
  {
    hide Classify, RowText, RowSays, Written, Lawful;
    RowClassified(o, row);
  }

  /** The parser's loop and the interpreter agree after every row. */
  lemma {:induction false} RunAgrees(o: Outside, rows: seq<Row>, append: bool)
    requires Lawful(o) && AllWritten(rows)
    ensures var ls, run := Classified(Texts(o, rows)), Run(o, rows, append);
            && FirstBad(o, ls) == (if run.Ok? then None else Some(run.error))
            && (run.Ok? ==> After(run.value, o, ls, append))
  {
    hide Classify, RowText, RowSays, Written, Lawful, After, Next, LineOk, Sane;
    if rows == [] {
      StartsAfter(o, append);
    } else {
      var init, row := rows[..|rows| - 1], rows[|rows| - 1];
      RunAgrees(o, init, append);
      RowLine(o, row);
      var ls, run := Classified(Texts(o, init)), Run(o, init, append);
      assert Texts(o, rows)[..|init|] == Texts(o, init);
      assert Classified(Texts(o, rows)) == ls + [RowSays(o, row)];
      assert (ls + [RowSays(o, row)])[..|ls|] == ls;
      if run.Ok? {
        RowStep(o, ls, run.value, append, row);
      }
    }
  }

  lemma {:induction false} MissingAgrees(blocks: seq<seq<Line>>)
    ensures Missing(Keyed(blocks)) == FirstKeyless(blocks)
  {
    if blocks == [] {
    } else {
      var init := blocks[..|blocks| - 1];
      MissingAgrees(init);
      assert Keyed(blocks)[..|init|] == Keyed(init);
    }
  }

  lemma {:induction false} DeliveredAgrees(o: Outside, rows: seq<Row>)
    ensures Scanned(Texts(o, rows)) == Delivered(o, rows)
  {
    hide Texts, RowText, ByteLength;
    var n, m := Delivered(o, rows), Scanned(Texts(o, rows));
    if n < m {
      TextsAt(o, rows, n);
    } else if m < n {
      TextsAt(o, rows, m);
    }
  }

  lemma {:induction false} AfterMeans(o: Outside, ls: seq<Line>, st: Progress, append: bool)
    requires After(st, o, ls, append)
    ensures Meaning(o, ls, append) == st.cfg && st.hasKey == Keyed(PeerBlocks(ls))
  {
  }

  /**
   * However a file is written, parsing it is running the interpreter on its rows: the same
   * configuration, or the same error at the same line or peer.
   */
  lemma {:induction false} ParsedIsInterpreted(o: Outside, rows: seq<Row>, append: bool)
    requires Lawful(o) && AllWritten(rows)
    ensures Parsed(o, Unlines(Texts(o, rows)), append) == Interpreted(o, rows, append)
  {
    hide Lawful, Texts, Written, Classified, FirstBad, FirstKeyless, Missing, Run, Scanned, Delivered, Meaning, After,
      Lines, Unlines, Keyed, PeerBlocks;
    var n := Delivered(o, rows);
    TextsAreLines(o, rows);
    LinesUnlines(Texts(o, rows));
    DeliveredAgrees(o, rows);
    TextsPrefix(o, rows, n);
    assert AllWritten(rows[..n]);
    RunAgrees(o, rows[..n], append);
    var ls := Classified(Texts(o, rows[..n]));
    MissingAgrees(PeerBlocks(ls));
    var run := Run(o, rows[..n], append);
    if run.Ok? {
      AfterMeans(o, ls, run.value, append);
    }
  }
}
