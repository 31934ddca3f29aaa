/**
 * Writing a device and reading it back: what Parse makes of the file that Encode wrote.
 */
module Showconf {
  import opened Wrappers
  import opened WgTypes
  import opened Seqs
  import opened Text
  import opened Base64
  import opened Addresses
  import opened Endpoints
  import opened ConfigLines
  import opened ConfigMeaning
  import opened ConfigText
  import opened ConfigSpells

  // ----- what each line says -----

  function NameSays(o: Outside, p: Peer): seq<Line> {
    When(HasName(p), NameLine(o.writeName(p.name.GetOr(""))))
  }

  function KeySays(p: Peer): seq<Line> {
    [FieldLine(PublicKey, KeyText(p.publicKey))]
      + When(p.hasPresharedKey, FieldLine(PresharedKey, KeyText(p.presharedKey)))
  }

  function NetSays(o: Outside, p: Peer): seq<Line> {
    When(p.allowedIPs != [], FieldLine(AllowedIPs, Squeeze(Join(Values(o, p.allowedIPs), ", "))))
  }

  function EndpointSays(o: Outside, p: Peer): seq<Line> {
    if p.endpoint.Some? then [FieldLine(Endpoint, FormatEndpoint(o, p.endpoint.value))] else []
  }

  function KeepaliveSays(p: Peer): seq<Line> {
    When(p.keepalive != 0, FieldLine(PersistentKeepalive, Itoa(WholeSeconds(p.keepalive))))
  }

  function RestSays(o: Outside, p: Peer): seq<Line> {
    NetSays(o, p) + EndpointSays(o, p) + KeepaliveSays(p)
  }

  function FieldsSay(o: Outside, p: Peer): seq<Line> {
    KeySays(p) + RestSays(o, p)
  }

  function PeerSays(o: Outside, p: Peer): seq<Line> {
    [PeerHeader] + NameSays(o, p) + FieldsSay(o, p)
  }

  function PeersSay(o: Outside, ps: seq<Peer>): seq<Line>
  {
    if ps == [] then []
    else PeersSay(o, ps[..|ps| - 1]) + (When(|ps| > 1, BlankLine) + PeerSays(o, ps[|ps| - 1]))
  }

  function HeaderFields(d: Device): seq<Line> {
    When(d.listenPort != 0, FieldLine(ListenPort, Itoa(d.listenPort)))
    + When(d.firewallMark != 0, FieldLine(FwMark, MarkText(d.firewallMark)))
    + When(d.hasPrivateKey, FieldLine(PrivateKey, KeyText(d.privateKey)))
  }

  function DeviceSays(o: Outside, d: Device): seq<Line> {
    [InterfaceHeader] + HeaderFields(d) + [BlankLine] + PeersSay(o, d.peers)
  }

  /** A device whose numbers are those the kernel holds, and whose zones have a text. */
  predicate Writable(d: Device) {
    && 0 <= d.listenPort <= 0xFFFF && 0 <= d.firewallMark <= 0xFFFF_FFFF
    && forall i :: 0 <= i < |d.peers| ==> PeerWritable(d.peers[i])
  }

  predicate PeerWritable(p: Peer) {
    && 0 <= p.keepalive <= 0xFFFF * SECOND
    && (p.endpoint.Some? ==> 0 <= p.endpoint.value.port <= 65535 && ZoneSafe(p.endpoint.value.zone))
  }

  // ----- classification -----

  lemma {:induction false} ClassifiedConcat(a: seq<string>, b: seq<string>)
    ensures Classified(a + b) == Classified(a) + Classified(b)
    decreases |b|
  {
    hide Classify, DropCR;
    if b == [] {
      assert a + b == a;
    } else {
      var b', x := b[..|b| - 1], b[|b| - 1];
      assert (a + b)[..|a + b| - 1] == a + b';
      ClassifiedConcat(a, b');
      Assoc(Classified(a), Classified(b'), [Classify(DropCR(x))]);
    }
  }

  lemma {:induction false} ClassifiedOne(line: string)
    requires Absent(line, '\r')
    ensures Classified([line]) == [Classify(line)]
  {
    hide Classify;
    assert [line][..0] == [];
  }

  lemma {:induction false} ClassifiedWhen(condition: bool, raw: string, line: Line)
    requires condition ==> Absent(raw, '\r') && Classify(raw) == line
    ensures Classified(When(condition, raw)) == When(condition, line)
  {
    hide Classify;
    if condition {
      ClassifiedOne(raw);
    }
  }

  /** Lines that stay what they are when they are written and scanned. */
  predicate Printable(lines: seq<string>) {
    AllAbsent(lines, '\n')
  }

  lemma {:induction false} SettingIsPrintable(name: string, value: string)
    requires Token(name) && Absent(value, '\r') && Absent(value, '\n')
    ensures Absent(Setting(name, value), '\r') && Absent(Setting(name, value), '\n')
  {
    TokenHasNoCR(name);
  }

  lemma {:induction false} TokenLine(condition: bool, name: string, field: Field, value: string)
    requires FieldName(name) && FieldOf(Lower(name)) == field && (condition ==> Token(value))
    ensures Classified(When(condition, Setting(name, value))) == When(condition, FieldLine(field, value))
    ensures Printable(When(condition, Setting(name, value)))
  {
    hide Classify, Lower, FieldOf;
    if condition {
      TokenHasNoCR(value);
      SettingIsPrintable(name, value);
      TokenSpells(name, value);
      ClassifiedWhen(condition, Setting(name, value), FieldLine(field, value));
    }
  }

  lemma {:induction false} NameLinesSay(o: Outside, p: Peer)
    requires LawfulNames(o)
    ensures Classified(When(HasName(p), NameText(o, p))) == NameSays(o, p)
    ensures Printable(When(HasName(p), NameText(o, p)))
  {
    hide Classify, Classified, NamePrefix;
    var q := o.writeName(p.name.GetOr(""));
    NameSpells(q);
    NameTextFits(q);
    ClassifiedWhen(HasName(p), NameText(o, p), NameLine(q));
  }

  lemma {:induction false} NameTextFits(q: string)
    requires Quoted(q)
    ensures Absent(NamePrefix() + " = " + q, '\n') && Absent(NamePrefix() + " = " + q, '\r')
  {
  }

  lemma {:induction false} KeyLinesSay(p: Peer)
    ensures Classified(KeyLines(p)) == KeySays(p) && Printable(KeyLines(p))
  {
    hide Classify, Lower, FieldOf, KeyText, Classified, FieldName;
    KeyFieldNames();
    KeyReads(p.publicKey);
    KeyReads(p.presharedKey);
    TokenLine(true, "PublicKey", PublicKey, KeyText(p.publicKey));
    TokenLine(p.hasPresharedKey, "PresharedKey", PresharedKey, KeyText(p.presharedKey));
    ClassifiedConcat([Setting("PublicKey", KeyText(p.publicKey))],
                     When(p.hasPresharedKey, Setting("PresharedKey", KeyText(p.presharedKey))));
  }

  lemma {:induction false} NetLinesSay(o: Outside, p: Peer)
    requires LawfulIP6(o)
    ensures Classified(NetLines(o, p)) == NetSays(o, p) && Printable(NetLines(o, p))
  {
    hide Classify, Lower, FieldOf, Classified, FieldName, Values, Join, ReadAllowedIPs, Incremental;
    if p.allowedIPs != [] {
      var value := Join(Values(o, p.allowedIPs), ", ");
      NetsRead(o, p.allowedIPs);
      AllowedIPsRead(o, p.allowedIPs);
      JoinPrintable(Values(o, p.allowedIPs));
      AddressFieldNames();
      SettingIsPrintable("AllowedIPs", value);
      SettingSpells("AllowedIPs", value);
      ClassifiedOne(Setting("AllowedIPs", value));
    } else {
      NothingSays();
    }
  }

  lemma {:induction false} NothingSays()
    ensures Classified([]) == [] && Printable([])
  {
  }

  lemma {:induction false} EndpointLinesSay(o: Outside, p: Peer)
    requires Lawful(o) && Retries(o).Some? && PeerWritable(p)
    ensures Classified(EndpointLines(o, p)) == EndpointSays(o, p) && Printable(EndpointLines(o, p))
  {
    hide Classify, Lower, FieldOf, FieldName, FormatEndpoint, ReadEndpoint, Unknown;
    if p.endpoint.Some? {
      var value := FormatEndpoint(o, p.endpoint.value);
      EndpointRoundTrip(o, p.endpoint.value);
      AddressFieldNames();
      TokenLine(true, "Endpoint", Endpoint, value);
    }
  }

  lemma {:induction false} KeepaliveLinesSay(p: Peer)
    requires PeerWritable(p)
    ensures Classified(KeepaliveLines(p)) == KeepaliveSays(p) && Printable(KeepaliveLines(p))
  {
    hide Classify, Lower, FieldOf, FieldName, Itoa, ReadPort, ReadKeepalive;
    NumberReads(WholeSeconds(p.keepalive));
    KeepaliveFieldName();
    TokenLine(p.keepalive != 0, "PersistentKeepalive", PersistentKeepalive, Itoa(WholeSeconds(p.keepalive)));
  }

  lemma {:induction false} PrintableConcat(a: seq<string>, b: seq<string>)
    requires Printable(a) && Printable(b)
    ensures Printable(a + b)
  {
  }

  lemma {:induction false} RestLinesSay(o: Outside, p: Peer)
    requires Lawful(o) && Retries(o).Some? && PeerWritable(p)
    ensures Classified(RestLines(o, p)) == RestSays(o, p) && Printable(RestLines(o, p))
  {
    hide Classified, NetLines, EndpointLines, KeepaliveLines, NetSays, EndpointSays, KeepaliveSays, Printable;
    NetLinesSay(o, p);
    EndpointLinesSay(o, p);
    KeepaliveLinesSay(p);
    ClassifiedConcat(NetLines(o, p), EndpointLines(o, p));
    ClassifiedConcat(NetLines(o, p) + EndpointLines(o, p), KeepaliveLines(p));
    PrintableConcat(NetLines(o, p), EndpointLines(o, p));
    PrintableConcat(NetLines(o, p) + EndpointLines(o, p), KeepaliveLines(p));
  }

  lemma {:induction false} HeaderSays(section: string, line: Line)
    requires Token(section) && Classify(section) == line
    ensures Classified([section]) == [line] && Printable([section])
  {
    hide Classify;
    TokenHasNoCR(section);
    ClassifiedOne(section);
  }

  lemma {:induction false} PeerLinesSay(o: Outside, p: Peer)
    requires Lawful(o) && Retries(o).Some? && PeerWritable(p)
    ensures Classified(PeerLines(o, p)) == PeerSays(o, p) && Printable(PeerLines(o, p))
  {
    hide Classified, Classify, RestLines, KeyLines, RestSays, KeySays, Printable, NameText, HasName;
    var head, name := ["[Peer]"], When(HasName(p), NameText(o, p));
    HeaderSpells();
    HeaderSays("[Peer]", PeerHeader);
    NameLinesSay(o, p);
    KeyLinesSay(p);
    RestLinesSay(o, p);
    ClassifiedConcat(head, name);
    ClassifiedConcat(head + name, KeyLines(p));
    ClassifiedConcat(head + name + KeyLines(p), RestLines(o, p));
    Assoc([PeerHeader] + NameSays(o, p), KeySays(p), RestSays(o, p));
    PrintableConcat(head, name);
    PrintableConcat(head + name, KeyLines(p));
    PrintableConcat(head + name + KeyLines(p), RestLines(o, p));
  }

  lemma {:induction false} PeersLinesSay(o: Outside, ps: seq<Peer>)
    requires Lawful(o) && Retries(o).Some? && forall i :: 0 <= i < |ps| ==> PeerWritable(ps[i])
    ensures Classified(PeersLines(o, ps)) == PeersSay(o, ps) && Printable(PeersLines(o, ps))
  {
    hide Classified, Classify, PeerLines, PeerSays, Printable;
    if ps == [] {
      NothingSays();
    } else {
      var init, p := ps[..|ps| - 1], ps[|ps| - 1];
      PeersLinesSay(o, init);
      PeerLinesSay(o, p);
      GapSays(|ps| - 1);
      ClassifiedConcat(Gap(|ps| - 1), PeerLines(o, p));
      ClassifiedConcat(PeersLines(o, init), SectionLines(o, |ps| - 1, p));
      PrintableConcat(Gap(|ps| - 1), PeerLines(o, p));
      PrintableConcat(PeersLines(o, init), SectionLines(o, |ps| - 1, p));
    }
  }

  lemma {:induction false} GapSays(i: int)
    ensures Classified(Gap(i)) == When(i > 0, BlankLine) && Printable(Gap(i))
  {
    hide Classify;
    EmptySpells();
    ClassifiedWhen(i > 0, "", BlankLine);
  }

  lemma {:induction false} SettingLinesSay(d: Device)
    requires Writable(d)
    ensures Classified(SettingLines(d)) == HeaderFields(d) && Printable(SettingLines(d))
  {
    hide Classified, Classify, Lower, FieldOf, FieldName, Itoa, KeyText, MarkText, Printable, ReadPort, ReadKeepalive,
      ReadMark, ReadCanonicalKey;
    var port := When(d.listenPort != 0, Setting("ListenPort", Itoa(d.listenPort)));
    var mark := When(d.firewallMark != 0, Setting("FwMark", MarkText(d.firewallMark)));
    var key := When(d.hasPrivateKey, Setting("PrivateKey", KeyText(d.privateKey)));
    InterfaceFieldNames();
    NumberReads(d.listenPort);
    MarkReads(d.firewallMark);
    KeyReads(d.privateKey);
    TokenLine(d.listenPort != 0, "ListenPort", ListenPort, Itoa(d.listenPort));
    TokenLine(d.firewallMark != 0, "FwMark", FwMark, MarkText(d.firewallMark));
    TokenLine(d.hasPrivateKey, "PrivateKey", PrivateKey, KeyText(d.privateKey));
    ClassifiedConcat(port, mark);
    ClassifiedConcat(port + mark, key);
    PrintableConcat(port, mark);
    PrintableConcat(port + mark, key);
  }

  lemma {:induction false} HeaderLinesSay(d: Device)
    requires Writable(d)
    ensures Classified(HeaderLines(d)) == [InterfaceHeader] + HeaderFields(d) + [BlankLine] && Printable(HeaderLines(d))
  {
    hide Classified, Classify, SettingLines, HeaderFields, Printable;
    SettingLinesSay(d);
    HeaderSpells();
    HeaderSays("[Interface]", InterfaceHeader);
    EmptySpells();
    HeaderSays("", BlankLine);
    ClassifiedConcat(["[Interface]"], SettingLines(d));
    ClassifiedConcat(["[Interface]"] + SettingLines(d), [""]);
    PrintableConcat(["[Interface]"], SettingLines(d));
    PrintableConcat(["[Interface]"] + SettingLines(d), [""]);
  }

  /** The written file, line by line. */
  lemma {:induction false} DeviceLinesSay(o: Outside, d: Device)
    requires Lawful(o) && Retries(o).Some? && Writable(d)
    ensures Classified(DeviceLines(o, d)) == DeviceSays(o, d) && Printable(DeviceLines(o, d))
  {
    hide Classified, HeaderLines, PeersLines, PeersSay, HeaderFields, Printable;
    HeaderLinesSay(d);
    PeersLinesSay(o, d.peers);
    ClassifiedConcat(HeaderLines(d), PeersLines(o, d.peers));
    PrintableConcat(HeaderLines(d), PeersLines(o, d.peers));
  }
}
