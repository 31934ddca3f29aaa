/** The lines of a written device are accepted, and mean that device. */
module ShowconfParses {
  import opened Wrappers
  import opened WgTypes
  import opened Seqs
  import opened Text
  import opened Base64
  import opened Addresses
  import opened Endpoints
  import opened ConfigLines
  import opened ConfigMeaning
  import opened ConfigParse
  import opened ConfigText
  import opened ConfigSpells
  import opened Showconf

  // ----- acceptance, step by step -----

  /** The lines `ls` are accepted and leave the parser in `section`. */
  ghost predicate Reads(o: Outside, ls: seq<Line>, section: Section, fields: seq<Line>, blocks: seq<seq<Line>>) {
    && FirstBad(o, ls).None?
    && SectionOf(ls) == section
    && InterfaceLines(ls) == fields
    && PeerBlocks(ls) == blocks
  }

  lemma {:induction false} ReadsSilent(o: Outside, ls: seq<Line>, section: Section, fields: seq<Line>,
      blocks: seq<seq<Line>>, line: Line)
    requires Reads(o, ls, section, fields, blocks) && !Says(line) && line != BadLine
    ensures Reads(o, ls + [line], SectionAfter(section, line), fields,
                  if line == PeerHeader then blocks + [[]] else blocks)
  {
    FirstBadSnoc(o, ls, line);
    SectionsSnoc(ls, line);
  }

  lemma {:induction false} ReadsSetting(o: Outside, ls: seq<Line>, fields: seq<Line>, blocks: seq<seq<Line>>,
      line: Line)
    requires Reads(o, ls, InInterface, fields, blocks)
    requires line.FieldLine? && InterfaceFieldOk(line.field, line.value)
    ensures Reads(o, ls + [line], InInterface, fields + [line], blocks)
  {
    hide InterfaceFieldOk, PeerFieldOk;
    FirstBadSnoc(o, ls, line);
    SectionsSnoc(ls, line);
  }

  lemma {:induction false} AddToLast(blocks: seq<seq<Line>>, block: seq<Line>, line: Line)
    ensures AddLine(blocks + [block], line) == blocks + [block + [line]]
  {
  }

  lemma {:induction false} ReadsField(o: Outside, ls: seq<Line>, fields: seq<Line>, blocks: seq<seq<Line>>,
      block: seq<Line>, line: Line)
    requires Reads(o, ls, InPeer, fields, blocks + [block])
    requires line.FieldLine? && PeerFieldOk(o, line.field, line.value)
    ensures Reads(o, ls + [line], InPeer, fields, blocks + [block + [line]])
  {
    hide InterfaceFieldOk, PeerFieldOk;
    FirstBadSnoc(o, ls, line);
    SectionsSnoc(ls, line);
    AddToLast(blocks, block, line);
  }

  lemma {:induction false} ReadsName(o: Outside, ls: seq<Line>, fields: seq<Line>, blocks: seq<seq<Line>>, text: string)
    requires Reads(o, ls, InPeer, fields, blocks + [[]]) && ReadPeerName(o, text).Some?
    ensures Reads(o, ls + [NameLine(text)], InPeer, fields, blocks + [[NameLine(text)]])
  {
    hide ReadPeerName;
    var line := NameLine(text);
    FirstBadSnoc(o, ls, line);
    SectionsSnoc(ls, line);
    AddToLast(blocks, [], line);
    assert PeerBlocks(ls)[|PeerBlocks(ls)| - 1] == [];
    assert [] + [line] == [line];
  }

  ghost predicate AllFieldsOk(o: Outside, lines: seq<Line>) {
    forall line <- lines :: line.FieldLine? && PeerFieldOk(o, line.field, line.value)
  }

  lemma {:induction false} ReadsFields(o: Outside, ls: seq<Line>, fields: seq<Line>, blocks: seq<seq<Line>>,
      block: seq<Line>, lines: seq<Line>)
    requires Reads(o, ls, InPeer, fields, blocks + [block]) && AllFieldsOk(o, lines)
    ensures Reads(o, ls + lines, InPeer, fields, blocks + [block + lines])
    decreases |lines|
  {
    hide PeerFieldOk, Reads;
    if lines == [] {
      Assoc(ls, [], []);
      Assoc(block, [], []);
    } else {
      var init, line := lines[..|lines| - 1], lines[|lines| - 1];
      assert lines == init + [line];
      ReadsFields(o, ls, fields, blocks, block, init);
      ReadsField(o, ls + init, fields, blocks, block + init, line);
      Assoc(ls, init, [line]);
      Assoc(block, init, [line]);
    }
  }

  ghost predicate AllSettingsOk(lines: seq<Line>) {
    forall line <- lines :: line.FieldLine? && InterfaceFieldOk(line.field, line.value)
  }

  lemma {:induction false} ReadsSettings(o: Outside, ls: seq<Line>, fields: seq<Line>, blocks: seq<seq<Line>>,
      lines: seq<Line>)
    requires Reads(o, ls, InInterface, fields, blocks) && AllSettingsOk(lines)
    ensures Reads(o, ls + lines, InInterface, fields + lines, blocks)
    decreases |lines|
  {
    hide InterfaceFieldOk, Reads;
    if lines == [] {
      Assoc(ls, [], []);
      Assoc(fields, [], []);
    } else {
      var init, line := lines[..|lines| - 1], lines[|lines| - 1];
      assert lines == init + [line];
      ReadsSettings(o, ls, fields, blocks, init);
      ReadsSetting(o, ls + init, fields + init, blocks, line);
      Assoc(ls, init, [line]);
      Assoc(fields, init, [line]);
    }
  }

  // ----- one peer -----

  /** A peer whose section the parser takes. */
  ghost predicate PeerFits(o: Outside, p: Peer) {
    Lawful(o) && Retries(o).Some? && PeerWritable(p) && NameOk(p)
  }

  lemma {:induction false} Fits(o: Outside, p: Peer)
    requires PeerFits(o, p)
    ensures Lawful(o) && Retries(o).Some? && PeerWritable(p) && NameOk(p)
  {
  }

  lemma {:induction false} FieldsOkConcat(o: Outside, a: seq<Line>, b: seq<Line>)
    requires AllFieldsOk(o, a) && AllFieldsOk(o, b)
    ensures AllFieldsOk(o, a + b)
  {
    hide PeerFieldOk;
  }

  lemma {:induction false} FieldOkWhen(o: Outside, condition: bool, field: Field, value: string)
    requires condition ==> PeerFieldOk(o, field, value)
    ensures AllFieldsOk(o, When(condition, FieldLine(field, value)))
  {
    hide PeerFieldOk;
  }

  lemma {:induction false} KeysAreOk(o: Outside, p: Peer)
    ensures AllFieldsOk(o, KeySays(p))
  {
    hide ReadCanonicalKey, KeyText, AllFieldsOk;
    KeyReads(p.publicKey);
    KeyReads(p.presharedKey);
    FieldOkWhen(o, true, PublicKey, KeyText(p.publicKey));
    FieldOkWhen(o, p.hasPresharedKey, PresharedKey, KeyText(p.presharedKey));
    FieldsOkConcat(o, [FieldLine(PublicKey, KeyText(p.publicKey))],
                   When(p.hasPresharedKey, FieldLine(PresharedKey, KeyText(p.presharedKey))));
  }

  lemma {:induction false} NetsAreOk(o: Outside, p: Peer)
    requires LawfulIP6(o)
    ensures AllFieldsOk(o, NetSays(o, p))
  {
    hide ReadAllowedIPs, Squeeze, Join, Values, Incremental, AllFieldsOk;
    if p.allowedIPs != [] {
      AllowedIPsRead(o, p.allowedIPs);
    }
    FieldOkWhen(o, p.allowedIPs != [], AllowedIPs, Squeeze(Join(Values(o, p.allowedIPs), ", ")));
  }

  lemma {:induction false} EndpointIsOk(o: Outside, p: Peer)
    requires Lawful(o) && Retries(o).Some? && PeerWritable(p)
    ensures AllFieldsOk(o, EndpointSays(o, p))
  {
    hide FormatEndpoint, ReadEndpoint, Unknown, AllFieldsOk;
    if p.endpoint.Some? {
      EndpointRoundTrip(o, p.endpoint.value);
      FieldOkWhen(o, true, Endpoint, FormatEndpoint(o, p.endpoint.value));
    } else {
      NoFields(o);
    }
  }

  lemma {:induction false} NoFields(o: Outside)
    ensures AllFieldsOk(o, [])
  {
  }

  lemma {:induction false} KeepaliveIsOk(o: Outside, p: Peer)
    requires PeerWritable(p)
    ensures AllFieldsOk(o, KeepaliveSays(p))
  {
    hide ReadKeepalive, ReadPort, Itoa, AllFieldsOk;
    NumberReads(WholeSeconds(p.keepalive));
    FieldOkWhen(o, p.keepalive != 0, PersistentKeepalive, Itoa(WholeSeconds(p.keepalive)));
  }

  lemma {:induction false} FieldsAreOk(o: Outside, p: Peer)
    requires PeerFits(o, p)
    ensures AllFieldsOk(o, FieldsSay(o, p))
  {
    hide AllFieldsOk, KeySays, NetSays, EndpointSays, KeepaliveSays;
    Fits(o, p);
    KeysAreOk(o, p);
    NetsAreOk(o, p);
    EndpointIsOk(o, p);
    KeepaliveIsOk(o, p);
    FieldsOkConcat(o, NetSays(o, p), EndpointSays(o, p));
    FieldsOkConcat(o, NetSays(o, p) + EndpointSays(o, p), KeepaliveSays(p));
    FieldsOkConcat(o, KeySays(p), RestSays(o, p));
  }

  function PeerBlock(o: Outside, p: Peer): seq<Line> {
    NameSays(o, p) + FieldsSay(o, p)
  }

  lemma {:induction false} NameReads(o: Outside, p: Peer)
    requires PeerFits(o, p) && HasName(p)
    ensures p.name.Some? && ReadPeerName(o, o.writeName(p.name.GetOr(""))) == p.name
  {
  }

  lemma {:induction false} PeerReads(o: Outside, ls: seq<Line>, section: Section, fields: seq<Line>,
      blocks: seq<seq<Line>>, p: Peer)
    requires Reads(o, ls, section, fields, blocks) && PeerFits(o, p)
    ensures Reads(o, ls + PeerSays(o, p), InPeer, fields, blocks + [PeerBlock(o, p)])
  {
    hide Reads, FieldsSay, AllFieldsOk, ReadPeerName, PeerFits, HasName;
    ReadsSilent(o, ls, section, fields, blocks, PeerHeader);
    var at := ls + [PeerHeader];
    if HasName(p) {
      NameReads(o, p);
      ReadsName(o, at, fields, blocks, o.writeName(p.name.GetOr("")));
    }
    Assoc(at, [], []);
    FieldsAreOk(o, p);
    ReadsFields(o, at + NameSays(o, p), fields, blocks, NameSays(o, p), FieldsSay(o, p));
    Assoc(ls, [PeerHeader], NameSays(o, p));
    Assoc(ls, [PeerHeader] + NameSays(o, p), FieldsSay(o, p));
  }

  function Blocks(o: Outside, ps: seq<Peer>): seq<seq<Line>>
  {
    if ps == [] then [] else Blocks(o, ps[..|ps| - 1]) + [PeerBlock(o, ps[|ps| - 1])]
  }

  lemma {:induction false} PeersRead(o: Outside, ls: seq<Line>, fields: seq<Line>, ps: seq<Peer>)
    requires Reads(o, ls, InInterface, fields, []) && forall p <- ps :: PeerFits(o, p)
    ensures exists section :: Reads(o, ls + PeersSay(o, ps), section, fields, Blocks(o, ps))
    decreases |ps|
  {
    hide Reads, PeerSays, PeerBlock, PeerFits;
    if ps == [] {
      Assoc(ls, [], []);
      assert Reads(o, ls + PeersSay(o, ps), InInterface, fields, Blocks(o, ps));
    } else {
      var init, p := ps[..|ps| - 1], ps[|ps| - 1];
      PeersRead(o, ls, fields, init);
      var before, gap := ls + PeersSay(o, init), When(|ps| > 1, BlankLine);
      var section :| Reads(o, before, section, fields, Blocks(o, init));
      ReadsSilent(o, before, section, fields, Blocks(o, init), BlankLine);
      Assoc(before, [], []);
      assert Reads(o, before + gap, section, fields, Blocks(o, init));
      PeerReads(o, before + gap, section, fields, Blocks(o, init), p);
      Assoc(before, gap, PeerSays(o, p));
      Assoc(ls, PeersSay(o, init), gap + PeerSays(o, p));
      assert Reads(o, ls + PeersSay(o, ps), InPeer, fields, Blocks(o, ps));
    }
  }

  lemma {:induction false} SettingsAreOk(d: Device)
    requires Writable(d)
    ensures AllSettingsOk(HeaderFields(d))
  {
    hide ReadCanonicalKey, KeyText, ReadPort, ReadKeepalive, Itoa, ReadMark, MarkText;
    NumberReads(d.listenPort);
    MarkReads(d.firewallMark);
    KeyReads(d.privateKey);
  }

  /** Every line of a written device is accepted where it stands. */
  lemma {:induction false} DeviceReads(o: Outside, d: Device)
    requires Writable(d) && forall p <- d.peers :: PeerFits(o, p)
    ensures exists section :: Reads(o, DeviceSays(o, d), section, HeaderFields(d), Blocks(o, d.peers))
  {
    hide Reads, HeaderFields, AllSettingsOk, PeersSay, PeerFits, Writable;
    EmptyReads(o);
    ReadsSilent(o, [], Nowhere, [], [], InterfaceHeader);
    assert [] + [InterfaceHeader] == [InterfaceHeader];
    SettingsAreOk(d);
    ReadsSettings(o, [InterfaceHeader], [], [], HeaderFields(d));
    assert [] + HeaderFields(d) == HeaderFields(d);
    var head := [InterfaceHeader] + HeaderFields(d);
    ReadsSilent(o, head, InInterface, HeaderFields(d), [], BlankLine);
    PeersRead(o, head + [BlankLine], HeaderFields(d), d.peers);
    var section :| Reads(o, head + [BlankLine] + PeersSay(o, d.peers), section, HeaderFields(d), Blocks(o, d.peers));
    assert Reads(o, DeviceSays(o, d), section, HeaderFields(d), Blocks(o, d.peers));
  }

  lemma {:induction false} EmptyReads(o: Outside)
    ensures Reads(o, [], Nowhere, [], [])
  {
  }
}
