/** The configuration that a written device is read back as. */
module ShowconfMeans {
  import opened Wrappers
  import opened WgTypes
  import opened Seqs
  import opened Text
  import opened Base64
  import opened Addresses
  import opened Endpoints
  import opened ConfigLines
  import opened ConfigMeaning
  import opened ConfigParse
  import opened ConfigText
  import opened ConfigSpells
  import opened Showconf
  import opened ShowconfParses

  // ----- the configuration -----

  function SpokenEndpoint(e: UDPAddr): UDPAddr {
    UDPAddr(Unmap(e.ip), e.port, e.zone)
  }

  function SpokenEndpointOf(p: Peer): Option<UDPAddr> {
    if p.endpoint.Some? then Some(SpokenEndpoint(p.endpoint.value)) else None
  }

  /** The entry that a written peer is read as. */
  function Restoring(p: Peer): PeerConfig {
    PeerConfig(if HasName(p) then p.name else None, p.publicKey, false, false,
               if p.hasPresharedKey then Some(p.presharedKey) else None,
               SpokenEndpointOf(p),
               if p.keepalive != 0 then Some(WholeSeconds(p.keepalive) * SECOND) else None,
               true, [], Sets(p.allowedIPs))
  }

  function RestoringAll(ps: seq<Peer>): (r: seq<PeerConfig>)
    ensures |r| == |ps|
  {
    if ps == [] then [] else RestoringAll(ps[..|ps| - 1]) + [Restoring(ps[|ps| - 1])]
  }

  /** The configuration that a written device is read as. */
  function RestoringDevice(d: Device): Config {
    Config(Some(if d.hasPrivateKey then d.privateKey else ZeroKey()), Some(d.listenPort), Some(d.firewallMark),
           true, RestoringAll(d.peers))
  }

  // ----- one section -----

  lemma {:induction false} PeerOfWhen(o: Outside, ls: seq<Line>, condition: bool, field: Field, value: string)
    ensures PeerOf(o, ls + When(condition, FieldLine(field, value))) ==
            if condition then WithField(o, PeerOf(o, ls), field, value) else PeerOf(o, ls)
  {
    hide PeerOf, WithField;
    if condition {
      PeerOfField(o, ls, field, value);
    } else {
      Assoc(ls, [], []);
    }
  }

  lemma {:induction false} NamePart(o: Outside, p: Peer)
    requires PeerFits(o, p)
    ensures PeerOf(o, NameSays(o, p)) ==
            PeerConfig(if HasName(p) then p.name else None, ZeroKey(), false, false, None, None, None, true, [], [])
  {
    hide PeerOf, PeerFits, HasName, ReadPeerName;
    EmptySection(o);
    if HasName(p) {
      NameReads(o, p);
      var text := o.writeName(p.name.GetOr(""));
      PeerOfName(o, [], text);
      assert [] + [NameLine(text)] == [NameLine(text)];
    }
  }

  lemma {:induction false} KeyPart(o: Outside, ls: seq<Line>, p: Peer)
    ensures PeerOf(o, ls + KeySays(p)) ==
            PeerOf(o, ls).(publicKey := p.publicKey,
                           presharedKey := if p.hasPresharedKey then Some(p.presharedKey)
                             else PeerOf(o, ls).presharedKey)
  {
    hide PeerOf, ReadCanonicalKey, KeyText;
    KeyReads(p.publicKey);
    KeyReads(p.presharedKey);
    PeerOfField(o, ls, PublicKey, KeyText(p.publicKey));
    var line := FieldLine(PublicKey, KeyText(p.publicKey));
    PeerOfWhen(o, ls + [line], p.hasPresharedKey, PresharedKey, KeyText(p.presharedKey));
    Assoc(ls, [line], When(p.hasPresharedKey, FieldLine(PresharedKey, KeyText(p.presharedKey))));
  }

  lemma {:induction false} NetPart(o: Outside, ls: seq<Line>, p: Peer)
    requires LawfulIP6(o) && PeerOf(o, ls).replaceAllowedIPs && PeerOf(o, ls).operations == []
    ensures PeerOf(o, ls + NetSays(o, p)) == PeerOf(o, ls).(operations := Sets(p.allowedIPs))
  {
    hide PeerOf, ReadAllowedIPs, Squeeze, Join, Values, Incremental;
    if p.allowedIPs != [] {
      AllowedIPsRead(o, p.allowedIPs);
    }
    PeerOfWhen(o, ls, p.allowedIPs != [], AllowedIPs, Squeeze(Join(Values(o, p.allowedIPs), ", ")));
  }

  lemma {:induction false} EndpointPart(o: Outside, ls: seq<Line>, p: Peer)
    requires Lawful(o) && Retries(o).Some? && PeerWritable(p) && PeerOf(o, ls).endpoint.None?
    ensures PeerOf(o, ls + EndpointSays(o, p)) == PeerOf(o, ls).(endpoint := SpokenEndpointOf(p))
  {
    hide PeerOf, FormatEndpoint, ReadEndpoint, Unknown;
    if p.endpoint.Some? {
      EndpointRoundTrip(o, p.endpoint.value);
      PeerOfField(o, ls, Endpoint, FormatEndpoint(o, p.endpoint.value));
    } else {
      Assoc(ls, [], []);
    }
  }

  lemma {:induction false} KeepalivePart(o: Outside, ls: seq<Line>, p: Peer)
    requires PeerWritable(p) && PeerOf(o, ls).keepalive.None?
    ensures PeerOf(o, ls + KeepaliveSays(p)) ==
            PeerOf(o, ls).(keepalive := if p.keepalive != 0 then Some(WholeSeconds(p.keepalive) * SECOND) else None)
  {
    hide PeerOf, ReadKeepalive, ReadPort, Itoa;
    NumberReads(WholeSeconds(p.keepalive));
    PeerOfWhen(o, ls, p.keepalive != 0, PersistentKeepalive, Itoa(WholeSeconds(p.keepalive)));
  }

  lemma {:induction false} BlockMeans(o: Outside, p: Peer)
    requires PeerFits(o, p)
    ensures PeerOf(o, PeerBlock(o, p)) == Restoring(p)
  {
    hide PeerOf, NameSays, KeySays, NetSays, EndpointSays, KeepaliveSays, SpokenEndpointOf, PeerFits, HasName;
    Fits(o, p);
    var name, key, net, endpoint, keepalive := NameSays(o, p), KeySays(p), NetSays(o, p), EndpointSays(o, p),
      KeepaliveSays(p);
    NamePart(o, p);
    KeyPart(o, name, p);
    NetPart(o, name + key, p);
    EndpointPart(o, name + key + net, p);
    KeepalivePart(o, name + key + net + endpoint, p);
    Assoc(name, key, RestSays(o, p));
    Assoc(name + key, net + endpoint, keepalive);
    Assoc(name + key, net, endpoint);
  }

  lemma {:induction false} BlocksMean(o: Outside, ps: seq<Peer>)
    requires forall p <- ps :: PeerFits(o, p)
    ensures PeersOf(o, Blocks(o, ps)) == RestoringAll(ps)
  {
    hide PeerOf, PeerBlock, Restoring, PeerFits;
    if ps == [] {
    } else {
      var init, p := ps[..|ps| - 1], ps[|ps| - 1];
      BlocksMean(o, init);
      BlockMeans(o, p);
      PeersSnoc(o, Blocks(o, init), PeerBlock(o, p));
    }
  }

  // ----- the device fields -----

  lemma {:induction false} LastValueWhen(ls: seq<Line>, condition: bool, field: Field, value: string, wanted: Field)
    ensures LastValue(ls + When(condition, FieldLine(field, value)), wanted) ==
            if condition && field == wanted then Some(value) else LastValue(ls, wanted)
  {
    if condition {
      LastValueSnoc(ls, FieldLine(field, value), wanted);
    } else {
      Assoc(ls, [], []);
    }
  }

  lemma {:induction false} HeaderValues(d: Device)
    ensures LastValue(HeaderFields(d), ListenPort) == if d.listenPort != 0 then Some(Itoa(d.listenPort)) else None
    ensures LastValue(HeaderFields(d), FwMark) == if d.firewallMark != 0 then Some(MarkText(d.firewallMark)) else None
    ensures LastValue(HeaderFields(d), PrivateKey) == if d.hasPrivateKey then Some(KeyText(d.privateKey)) else None
  {
    hide Itoa, MarkText, KeyText;
    var port := When(d.listenPort != 0, FieldLine(ListenPort, Itoa(d.listenPort)));
    var mark := When(d.firewallMark != 0, FieldLine(FwMark, MarkText(d.firewallMark)));
    assert [] + port == port;
    forall wanted: Field
      ensures LastValue(HeaderFields(d), wanted) ==
              if d.hasPrivateKey && wanted == PrivateKey then Some(KeyText(d.privateKey))
              else if d.firewallMark != 0 && wanted == FwMark then Some(MarkText(d.firewallMark))
              else if d.listenPort != 0 && wanted == ListenPort then Some(Itoa(d.listenPort))
              else None
    {
      LastValueWhen([], d.listenPort != 0, ListenPort, Itoa(d.listenPort), wanted);
      LastValueWhen(port, d.firewallMark != 0, FwMark, MarkText(d.firewallMark), wanted);
      LastValueWhen(port + mark, d.hasPrivateKey, PrivateKey, KeyText(d.privateKey), wanted);
    }
  }

  /** Whether the section of a peer has a line for a field: only for what the device has. */
  predicate HasLine(p: Peer, field: Field) {
    match field
    case PublicKey => true
    case PresharedKey => p.hasPresharedKey
    case AllowedIPs => p.allowedIPs != []
    case Endpoint => p.endpoint.Some?
    case PersistentKeepalive => p.keepalive != 0
    case _ => false
  }

  lemma {:induction false} NameHasNoValue(o: Outside, p: Peer, wanted: Field)
    ensures LastValue(NameSays(o, p), wanted).None?
  {
  }

  function SecretSays(p: Peer): seq<Line> {
    When(p.hasPresharedKey, FieldLine(PresharedKey, KeyText(p.presharedKey)))
  }

  lemma {:induction false} BlockParts(o: Outside, p: Peer)
    ensures PeerBlock(o, p) ==
            NameSays(o, p) + [FieldLine(PublicKey, KeyText(p.publicKey))] + SecretSays(p) + NetSays(o, p)
              + EndpointSays(o, p) + KeepaliveSays(p)
  {
    hide NameSays, NetSays, EndpointSays, KeepaliveSays, KeyText;
    var name, key := NameSays(o, p), [FieldLine(PublicKey, KeyText(p.publicKey))];
    Assoc(name, key + SecretSays(p), RestSays(o, p));
    Assoc(name, key, SecretSays(p));
    Assoc(name + key + SecretSays(p), NetSays(o, p) + EndpointSays(o, p), KeepaliveSays(p));
    Assoc(name + key + SecretSays(p), NetSays(o, p), EndpointSays(o, p));
  }

  lemma {:induction false} EndpointSaid(o: Outside, p: Peer, ls: seq<Line>, wanted: Field)
    ensures LastValue(ls + EndpointSays(o, p), wanted).Some? <==>
              (p.endpoint.Some? && wanted == Endpoint) || LastValue(ls, wanted).Some?
  {
    hide FormatEndpoint, LastValue;
    if p.endpoint.Some? {
      LastValueSnoc(ls, FieldLine(Endpoint, FormatEndpoint(o, p.endpoint.value)), wanted);
    } else {
      Assoc(ls, [], []);
    }
  }

  /** A field is written exactly when there is something to write. */
  lemma {:induction false} BlockValues(o: Outside, p: Peer, wanted: Field)
    ensures LastValue(PeerBlock(o, p), wanted).Some? <==> HasLine(p, wanted)
    ensures LastName(NameSays(o, p)).Some? <==> p.name.Some? && p.name.value != ""
  {
    hide NameSays, KeyText, EndpointSays, Itoa, WholeSeconds, Join, Values, Squeeze, LastValue, PeerBlock, When,
      LastName;
    var a := NameSays(o, p);
    var b := a + [FieldLine(PublicKey, KeyText(p.publicKey))];
    var c := b + SecretSays(p);
    var d := c + NetSays(o, p);
    var e := d + EndpointSays(o, p);
    BlockParts(o, p);
    NameHasNoValue(o, p, wanted);
    NameSaid(o, p);
    LastValueSnoc(a, FieldLine(PublicKey, KeyText(p.publicKey)), wanted);
    LastValueWhen(b, p.hasPresharedKey, PresharedKey, KeyText(p.presharedKey), wanted);
    LastValueWhen(c, p.allowedIPs != [], AllowedIPs, Squeeze(Join(Values(o, p.allowedIPs), ", ")), wanted);
    EndpointSaid(o, p, d, wanted);
    LastValueWhen(e, p.keepalive != 0, PersistentKeepalive, Itoa(WholeSeconds(p.keepalive)), wanted);
  }

  lemma {:induction false} NameSaid(o: Outside, p: Peer)
    ensures LastName(NameSays(o, p)).Some? <==> p.name.Some? && p.name.value != ""
  {
  }

  lemma {:induction false} HeaderMeans(d: Device, peers: seq<PeerConfig>)
    requires Writable(d)
    ensures ConfigFrom(HeaderFields(d), peers, false) ==
            Config(Some(if d.hasPrivateKey then d.privateKey else ZeroKey()), Some(d.listenPort),
              Some(d.firewallMark), true, peers)
  {
    hide HeaderFields, ReadCanonicalKey, KeyText, ReadPort, ReadKeepalive, ReadMark, Itoa, MarkText;
    HeaderValues(d);
    NumberReads(d.listenPort);
    MarkReads(d.firewallMark);
    KeyReads(d.privateKey);
    assert NumberOf(ReadPort, HeaderFields(d), ListenPort) == if d.listenPort != 0 then Some(d.listenPort) else None;
    assert NumberOf(ReadMark, HeaderFields(d), FwMark) == if d.firewallMark != 0 then Some(d.firewallMark) else None;
  }

  // ----- the whole file -----

  lemma {:induction false} BlockHasKey(o: Outside, p: Peer)
    requires PeerFits(o, p)
    ensures LastValue(PeerBlock(o, p), PublicKey).Some?
  {
    hide PeerFits, KeyText, RestSays, NameSays, LastValue;
    var name, line := NameSays(o, p), FieldLine(PublicKey, KeyText(p.publicKey));
    var psk := When(p.hasPresharedKey, FieldLine(PresharedKey, KeyText(p.presharedKey)));
    LastValueSnoc(name, line, PublicKey);
    ValueStays(name + [line], psk, PublicKey);
    ValueStays(name + [line] + psk, RestSays(o, p), PublicKey);
    Assoc(name, [line], psk);
    Assoc(name, [line] + psk, RestSays(o, p));
  }

  lemma {:induction false} ValueStays(ls: seq<Line>, more: seq<Line>, field: Field)
    requires LastValue(ls, field).Some?
    ensures LastValue(ls + more, field).Some?
    decreases |more|
  {
    if more == [] {
      Assoc(ls, [], []);
    } else {
      var init := more[..|more| - 1];
      ValueStays(ls, init, field);
      assert (ls + more)[..|ls + more| - 1] == ls + init;
    }
  }

  lemma {:induction false} NoneKeyless(o: Outside, ps: seq<Peer>)
    requires forall p <- ps :: PeerFits(o, p)
    ensures FirstKeyless(Blocks(o, ps)).None?
  {
    hide PeerFits, PeerBlock;
    if ps == [] {
    } else {
      var init, p := ps[..|ps| - 1], ps[|ps| - 1];
      NoneKeyless(o, init);
      BlockHasKey(o, p);
      assert Blocks(o, ps)[..|Blocks(o, ps)| - 1] == Blocks(o, init);
    }
  }
}
