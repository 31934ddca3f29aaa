/** Each line the encoder writes is classified as the line it stands for. */
module ConfigSpells {
  import opened Wrappers
  import opened WgTypes
  import opened Seqs
  import opened Text
  import opened Numbers
  import opened Base64
  import opened Addresses
  import opened ConfigLines
  import opened ConfigText

  // ----- settings -----

  /** A field name as the encoder writes it. */
  predicate FieldName(name: string) {
    Token(name) && name != "" && name[0] != '[' && Absent(name, '=')
  }

  lemma {:induction false} TokenStart(s: string)
    requires Token(s) && s != ""
    ensures !Space(s[0]) && s[0] != '#' && !Space(s[|s| - 1]) && Trimmed(s)
  {
    assert Graphic(s[0]) && Graphic(s[|s| - 1]);
  }

  lemma {:induction false} NotAName(line: string)
    requires line != "" && !Space(line[0]) && line[0] != '#'
    ensures NameComment(line).None?
  {
    TrimKeepsStart(line);
  }

  lemma {:induction false} CleanSetting(name: string, value: string)
    requires FieldName(name) && Absent(value, '#')
    ensures Clean(Setting(name, value)) == name + "=" + Squeeze(value)
  {
    hide Squeeze;
    var line := Setting(name, value);
    SqueezeToken(name);
    EqualsSqueezes();
    assert Absent(line, '#');
    FirstNone(line, '#');
    Whole(line);
    SqueezeConcat(name + " = ", value);
    SqueezeConcat(name, " = ");
  }

  lemma {:induction false} EqualsSqueezes()
    ensures Squeeze(" = ") == "="
  {
    assert " = "[..2] == " =" && " ="[..1] == " " && " "[..0] == "";
    assert Squeeze(" ") == "" && Squeeze(" =") == "=";
  }

  lemma {:induction false} SettingSpells(name: string, value: string)
    requires FieldName(name) && Absent(value, '#')
    ensures Classify(Setting(name, value)) == FieldLine(FieldOf(Lower(name)), Squeeze(value))
  {
    hide FieldOf, NameComment, Clean, Lower;
    var line := Setting(name, value);
    TokenStart(name);
    assert line[0] == name[0];
    NotAName(line);
    CleanSetting(name, value);
    var clean := name + ['='] + Squeeze(value);
    assert Clean(line) == clean && clean[0] == name[0];
    FirstAfter(name, '=', Squeeze(value));
    assert Cut(clean, '=') == Some((name, Squeeze(value)));
  }

  /** The usual case: a value without blanks. */
  lemma {:induction false} TokenSpells(name: string, value: string)
    requires FieldName(name) && Token(value)
    ensures Classify(Setting(name, value)) == FieldLine(FieldOf(Lower(name)), value)
  {
    hide Classify, FieldOf, Lower;
    SqueezeToken(value);
    SettingSpells(name, value);
  }

  lemma {:induction false} InterfaceFieldNames()
    ensures FieldName("PrivateKey") && FieldName("ListenPort") && FieldName("FwMark")
    ensures FieldOf(Lower("PrivateKey")) == PrivateKey
    ensures FieldOf(Lower("ListenPort")) == ListenPort
    ensures FieldOf(Lower("FwMark")) == FwMark
  {
    assert Lower("PrivateKey") == "privatekey";
    assert Lower("ListenPort") == "listenport";
    assert Lower("FwMark") == "fwmark";
  }

  lemma {:induction false} KeyFieldNames()
    ensures FieldName("PublicKey") && FieldName("PresharedKey")
    ensures FieldOf(Lower("PublicKey")) == PublicKey
    ensures FieldOf(Lower("PresharedKey")) == PresharedKey
  {
    assert Lower("PublicKey") == "publickey";
    assert Lower("PresharedKey") == "presharedkey";
  }

  lemma {:induction false} AddressFieldNames()
    ensures FieldName("Endpoint") && FieldName("AllowedIPs")
    ensures FieldOf(Lower("Endpoint")) == Endpoint
    ensures FieldOf(Lower("AllowedIPs")) == AllowedIPs
  {
    assert Lower("Endpoint") == "endpoint";
    assert Lower("AllowedIPs") == "allowedips";
  }

  lemma {:induction false} KeepaliveFieldName()
    ensures FieldName("PersistentKeepalive")
    ensures FieldOf(Lower("PersistentKeepalive")) == PersistentKeepalive
  {
    assert FieldName("PersistentKeepalive") by {
      hide FieldOf, Lower;
    }
    hide FieldName;
    assert Lower("PersistentKeepalive") == "persistentkeepalive" by {
      hide FieldOf;
    }
    hide Lower;
    assert |"persistentkeepalive"| == 19;
  }

  // ----- headers and names -----

  lemma {:induction false} BracketSpells(name: string)
    requires Token(name)
    ensures Classify("[" + name + "]") == SectionLine(Lower(name))
  {
    hide NameComment, Lower, SectionLine;
    var line := "[" + name + "]";
    assert line[0] == '[' && line[|line| - 1] == ']';
    NotAName(line);
    SqueezeToken(line);
    FirstNone(line, '#');
    Whole(line);
    assert Clean(line) == line;
    assert line[1..|line| - 1] == name;
  }

  lemma {:induction false} HeaderSpells()
    ensures Classify("[Interface]") == InterfaceHeader && Classify("[Peer]") == PeerHeader
  {
    hide Classify;
    BracketSpells("Interface");
    BracketSpells("Peer");
    assert "[Interface]" == "[" + "Interface" + "]" && "[Peer]" == "[" + "Peer" + "]";
    assert Lower("Interface") == "interface";
    assert Lower("Peer") == "peer";
  }

  lemma {:induction false} EmptySpells()
    ensures Classify("") == BlankLine
  {
    assert Trim("") == "";
  }

  lemma {:induction false} NameSpells(q: string)
    requires Quoted(q)
    ensures Classify(NamePrefix() + " = " + q) == NameLine(q)
  {
    hide Trim, Clean, FieldOf, Lower, SectionLine;
    var prefix := NamePrefix();
    var line := prefix + " = " + q;
    assert line[0] == '#' && line[|line| - 1] == '"';
    TrimTrimmed(line);
    var setting := "= " + q;
    assert setting[0] == '=' && setting[|setting| - 1] == '"';
    assert line == prefix + ([' '] + setting);
    assert line[|prefix|..] == [' '] + setting;
    TrimTrimmed(setting);
    assert setting[1..] == [' '] + q;
    TrimTrimmed(q);
    assert NameComment(line) == Some(q);
  }

  // ----- values -----

  /** The networks of a peer as the operations that set them. */
  function Sets(nets: seq<Cidr>): (r: seq<AllowedIPConfig>)
    ensures |r| == |nets|
  {
    if nets == [] then []
    else Sets(nets[..|nets| - 1]) + [AllowedIPConfig(Spoken(nets[|nets| - 1]), AllowedIPSet)]
  }

  predicate Tokens(parts: seq<string>) {
    forall i :: 0 <= i < |parts| ==> Token(parts[i])
  }

  lemma {:induction false} JoinTokens(parts: seq<string>)
    requires Tokens(parts)
    ensures Absent(Join(parts, ", "), '#') && Squeeze(Join(parts, ", ")) == Join(parts, ",")
    decreases |parts|
  {
    hide Squeeze;
    if parts == [] {
      SqueezeToken("");
    } else {
      SqueezeToken(parts[0]);
      if |parts| > 1 {
        var rest := parts[1..];
        assert forall i :: 0 <= i < |rest| ==> rest[i] == parts[i + 1];
        JoinTokens(rest);
        SqueezeConcat(parts[0] + ", ", Join(rest, ", "));
        SqueezeConcat(parts[0], ", ");
        SeparatorSqueezes();
      }
    }
  }

  lemma {:induction false} TokenHasNoCR(s: string)
    requires Token(s)
    ensures Absent(s, '\r') && Absent(s, '\n')
  {
  }

  lemma {:induction false} JoinPrintable(parts: seq<string>)
    requires Tokens(parts)
    ensures Absent(Join(parts, ", "), '\r') && Absent(Join(parts, ", "), '\n')
    decreases |parts|
  {
    if parts == [] {
    } else {
      TokenHasNoCR(parts[0]);
      var rest := parts[1..];
      assert forall i :: 0 <= i < |rest| ==> rest[i] == parts[i + 1];
      JoinPrintable(rest);
    }
  }

  lemma {:induction false} SeparatorSqueezes()
    ensures Squeeze(", ") == ","
  {
    assert ", "[..1] == "," && ","[..0] == "";
    assert Squeeze(",") == ",";
  }

  lemma {:induction false} ValuesAt(o: Outside, nets: seq<Cidr>, i: nat)
    requires i < |nets|
    ensures Values(o, nets)[i] == WriteCidr(o, nets[i])
  {
    if i == |nets| - 1 {
    } else {
      ValuesAt(o, nets[..|nets| - 1], i);
    }
  }

  lemma {:induction false} AddrStart(o: Outside, ip: IP)
    requires LawfulIP6(o)
    ensures WriteIP(o, ip) != "" && WriteIP(o, ip)[0] != '+' && WriteIP(o, ip)[0] != '-'
  {
    match Unmap(ip)
    case IP4(b) => IP4RoundTrip(b);
    case IP6(b) => assert IP6Text(o.writeIP6(b));
  }

  /** A written network is read as setting the network it names. */
  lemma {:induction false} NetReads(o: Outside, c: Cidr)
    requires LawfulIP6(o)
    ensures var part := WriteCidr(o, c);
            && Token(part) && part != "" && Trim(part) == part && !Signed(part)
            && ReadOperation(o, part) == Some(AllowedIPConfig(Spoken(c), AllowedIPSet))
  {
    hide ReadCidr, WriteCidr, WriteIP, Spoken, ReadAddr, ReadIP, Trim;
    var part := WriteCidr(o, c);
    var s := Spoken(c);
    CidrRoundTrip(o, c);
    CidrText(o, c);
    AddrStart(o, CidrIP(s));
    TokenStart(part);
    TrimTrimmed(part);
    assert part[|WriteIP(o, CidrIP(s))|] == '/';
  }

  // ----- entries of an AllowedIPs line -----

  /** A network, or a lone address. */
  datatype Named = Net(net: Cidr) | Host(ip: IP)

  /** One entry of an AllowedIPs line. */
  datatype Entry = Entry(operation: AllowedIPOperation, named: Named)

  /** The sign before an entry. */
  function SignText(operation: AllowedIPOperation): string {
    match operation
    case AllowedIPSet => ""
    case AllowedIPAdd => "+"
    case AllowedIPRemove => "-"
  }

  function NamedText(o: Outside, named: Named): string {
    match named
    case Net(net) => WriteCidr(o, net)
    case Host(ip) => WriteIP(o, ip)
  }

  /** A lone address is the network of that address only. */
  function NamedNet(named: Named): Cidr {
    match named
    case Net(net) => Spoken(net)
    case Host(ip) =>
      match Unmap(ip)
      case IP4(b) => Cidr4(b, 32)
      case IP6(b) => Cidr6(b, 128)
  }

  function EntryText(o: Outside, e: Entry): string {
    SignText(e.operation) + NamedText(o, e.named)
  }

  function OperationOf(e: Entry): AllowedIPConfig {
    AllowedIPConfig(NamedNet(e.named), e.operation)
  }

  function EntryTexts(o: Outside, es: seq<Entry>): (r: seq<string>)
    ensures |r| == |es|
  {
    if es == [] then [] else EntryTexts(o, es[..|es| - 1]) + [EntryText(o, es[|es| - 1])]
  }

  function OperationsFor(es: seq<Entry>): (r: seq<AllowedIPConfig>)
    ensures |r| == |es|
  {
    if es == [] then [] else OperationsFor(es[..|es| - 1]) + [OperationOf(es[|es| - 1])]
  }

  /** Some entry adds or removes its network. */
  predicate SomeChange(es: seq<Entry>) {
    exists e <- es :: e.operation != AllowedIPSet
  }

  function SetNets(nets: seq<Cidr>): (r: seq<Entry>)
    ensures |r| == |nets|
  {
    if nets == [] then [] else SetNets(nets[..|nets| - 1]) + [Entry(AllowedIPSet, Net(nets[|nets| - 1]))]
  }

  lemma {:induction false} SetNetsAre(o: Outside, nets: seq<Cidr>)
    ensures EntryTexts(o, SetNets(nets)) == Values(o, nets)
    ensures OperationsFor(SetNets(nets)) == Sets(nets) && !SomeChange(SetNets(nets))
  {
    hide WriteCidr, Spoken;
    if nets == [] {
    } else {
      var init, c := nets[..|nets| - 1], nets[|nets| - 1];
      SetNetsAre(o, init);
      assert SetNets(nets)[..|init|] == SetNets(init);
      assert "" + WriteCidr(o, c) == WriteCidr(o, c);
    }
  }

  lemma {:induction false} HostReads(o: Outside, ip: IP)
    requires LawfulIP6(o)
    ensures var part := WriteIP(o, ip);
            && Token(part) && part != "" && part[0] != '+' && part[0] != '-'
            && ReadNet(o, part) == Some(NamedNet(Host(ip)))
  {
    hide ReadCidr, WriteIP, ReadAddr, ReadIP;
    AddrRoundTrip(o, ip);
    AddrStart(o, ip);
  }

  lemma {:induction false} NamedReads(o: Outside, named: Named)
    requires LawfulIP6(o)
    ensures var part := NamedText(o, named);
            && Token(part) && part != "" && part[0] != '+' && part[0] != '-'
            && ReadNet(o, part) == Some(NamedNet(named))
  {
    hide ReadNet, WriteIP, WriteCidr, Spoken, Unmap;
    match named
    case Net(net) => NetReads(o, net);
    case Host(ip) => HostReads(o, ip);
  }

  lemma {:induction false} EntryReads(o: Outside, e: Entry)
    requires LawfulIP6(o)
    ensures var part := EntryText(o, e);
            && Token(part) && part != "" && Trim(part) == part
            && (Signed(part) <==> e.operation != AllowedIPSet)
            && ReadOperation(o, part) == Some(OperationOf(e))
  {
    hide ReadNet, NamedNet, NamedText, Trim;
    var sign, text, part := SignText(e.operation), NamedText(o, e.named), EntryText(o, e);
    NamedReads(o, e.named);
    match e.operation {
      case AllowedIPSet =>
        assert part == text;
      case AllowedIPAdd =>
        assert part[0] == '+' && part[1..] == text;
      case AllowedIPRemove =>
        assert part[0] == '-' && part[1..] == text;
    }
    TokenStart(part);
    TrimTrimmed(part);
  }

  lemma {:induction false} EntryTextsAt(o: Outside, es: seq<Entry>, i: nat)
    requires i < |es|
    ensures EntryTexts(o, es)[i] == EntryText(o, es[i])
  {
    hide EntryText;
    if i == |es| - 1 {
    } else {
      EntryTextsAt(o, es[..|es| - 1], i);
    }
  }

  /** Some text has a sign exactly when some entry adds or removes. */
  lemma {:induction false} SignsRead(o: Outside, es: seq<Entry>)
    requires LawfulIP6(o)
    ensures SomeSigned(EntryTexts(o, es)) <==> SomeChange(es)
  {
    hide Trim, ReadOperation, EntryText, EntryTexts, OperationOf, Signed, LawfulIP6;
    var texts := EntryTexts(o, es);
    forall i | 0 <= i < |es|
      ensures Signed(Trim(texts[i])) <==> es[i].operation != AllowedIPSet
    {
      EntryTextsAt(o, es, i);
      EntryReads(o, es[i]);
    }
    if SomeChange(es) {
      var e :| e in es && e.operation != AllowedIPSet;
      var i :| 0 <= i < |es| && es[i] == e;
      assert Signed(Trim(texts[i]));
    }
    if SomeSigned(texts) {
      var i :| 0 <= i < |texts| && Signed(Trim(texts[i]));
      assert es[i] in es;
    }
  }

  lemma {:induction false} EntryTokens(o: Outside, es: seq<Entry>)
    requires LawfulIP6(o)
    ensures var texts := EntryTexts(o, es);
            Tokens(texts) && AllAbsent(texts, ',') && forall i :: 0 <= i < |texts| ==> texts[i] != ""
  {
    hide Trim, ReadOperation, EntryText, EntryTexts, OperationOf, Token, Absent, Signed, LawfulIP6;
    var texts := EntryTexts(o, es);
    forall i | 0 <= i < |es|
      ensures Token(texts[i]) && Absent(texts[i], ',') && texts[i] != ""
    {
      EntryTextsAt(o, es, i);
      EntryReads(o, es[i]);
      SqueezeToken(texts[i]);
    }
  }

  lemma {:induction false} EntriesRead(o: Outside, es: seq<Entry>)
    requires LawfulIP6(o)
    ensures ReadOperations(o, EntryTexts(o, es)) == Some(OperationsFor(es))
  {
    hide Trim, ReadOperation, EntryText, OperationOf, Token, Signed, LawfulIP6;
    if es == [] {
    } else {
      var init := es[..|es| - 1];
      EntriesRead(o, init);
      EntryReads(o, es[|es| - 1]);
      assert EntryTexts(o, es)[..|init|] == EntryTexts(o, init);
    }
  }

  /**
   * An AllowedIPs line in any mixture of set, added and removed networks is read as those
   * operations in order, and replaces the networks of its peer only if it adds and removes none.
   */
  lemma {:induction false} OperationsAreRead(o: Outside, es: seq<Entry>)
    requires LawfulIP6(o)
    ensures var value := Join(EntryTexts(o, es), ", ");
            && Absent(value, '#') && Absent(value, '\r') && Absent(value, '\n')
            && ReadAllowedIPs(o, Squeeze(value)) == Some(OperationsFor(es))
            && (Incremental(Squeeze(value)) <==> exists e <- es :: e.operation != AllowedIPSet)
  {
    hide ReadOperations, SomeSigned;
    var texts := EntryTexts(o, es);
    EntriesRead(o, es);
    EntryTokens(o, es);
    SignsRead(o, es);
    JoinTokens(texts);
    JoinPrintable(texts);
    if es != [] {
      SplitJoin(texts, ',');
      assert texts[0] != "";
      assert Join(texts, ",") != "";
    }
  }

  lemma {:induction false} NetsRead(o: Outside, nets: seq<Cidr>)
    requires LawfulIP6(o)
    ensures ReadOperations(o, Values(o, nets)) == Some(Sets(nets)) && !SomeSigned(Values(o, nets))
    ensures Tokens(Values(o, nets)) && AllAbsent(Values(o, nets), ',')
  {
    hide ReadOperations, SomeSigned, SomeChange;
    EntriesRead(o, SetNets(nets));
    EntryTokens(o, SetNets(nets));
    SignsRead(o, SetNets(nets));
    SetNetsAre(o, nets);
  }

  /** The value of an AllowedIPs line is read as setting the networks of the peer. */
  lemma {:induction false} AllowedIPsRead(o: Outside, nets: seq<Cidr>)
    requires LawfulIP6(o)
    ensures var value := Join(Values(o, nets), ", ");
            && Absent(value, '#')
            && ReadAllowedIPs(o, Squeeze(value)) == Some(Sets(nets))
            && !Incremental(Squeeze(value))
  {
    hide ReadAllowedIPs, Incremental, Squeeze;
    OperationsAreRead(o, SetNets(nets));
    SetNetsAre(o, nets);
  }

  lemma {:induction false} KeyReads(k: Key)
    ensures ReadCanonicalKey(KeyText(k)) == Some(k) && Token(KeyText(k))
  {
    KeyTextReads(k);
  }

  lemma {:induction false} NotOff(s: string)
    requires s != "" && LowerChar(s[0]) != 'o'
    ensures !IsOff(s)
  {
    assert Lower(s)[0] == LowerChar(s[0]);
  }

  lemma {:induction false} NumberReads(n: nat)
    requires n <= 0xFFFF
    ensures ReadPort(Itoa(n)) == Some(n) && ReadKeepalive(Itoa(n)) == Some(n) && Token(Itoa(n))
  {
    ParseFormat(n, 10, 0xFFFF);
    FormatPlain(n, 10);
    NotOff(Format(n, 10));
  }

  lemma {:induction false} MarkReads(n: nat)
    requires n <= 0xFFFF_FFFF
    ensures ReadMark(MarkText(n)) == Some(n) && Token(MarkText(n))
  {
    hide Format;
    ParseFormat(n, 16, 0xFFFF_FFFF);
    var s := MarkText(n);
    assert s[0] == '0' && s[2..] == Format(n, 16) && s[..2] == "0x";
    NotOff(s);
  }
}
