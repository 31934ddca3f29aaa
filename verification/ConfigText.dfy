/** Writing a device as a wg(8) configuration file: internal/wgconfig/encode.go. */
module ConfigText {
  import opened Wrappers
  import opened WgTypes
  import opened Seqs
  import opened Text
  import opened Numbers
  import opened Base64
  import opened Addresses
  import opened ConfigLines

  // ----- the lines of a file -----

  /** The line that sets a field. */
  function Setting(name: string, value: string): string {
    name + " = " + value
  }

  function MarkText(mark: int): string {
    if mark < 0 then "0x-" + Format(-mark, 16) else "0x" + Format(mark, 16)
  }

  function Values(o: Outside, nets: seq<Cidr>): (r: seq<string>)
    ensures |r| == |nets|
  {
    if nets == [] then [] else Values(o, nets[..|nets| - 1]) + [WriteCidr(o, nets[|nets| - 1])]
  }

  predicate HasName(p: Peer) {
    p.name.Some? && p.name.value != ""
  }

  function NameText(o: Outside, p: Peer): string {
    NamePrefix() + " = " + o.writeName(p.name.GetOr(""))
  }

  function KeyLines(p: Peer): seq<string> {
    [Setting("PublicKey", KeyText(p.publicKey))]
      + When(p.hasPresharedKey, Setting("PresharedKey", KeyText(p.presharedKey)))
  }

  function NetLines(o: Outside, p: Peer): seq<string> {
    When(p.allowedIPs != [], Setting("AllowedIPs", Join(Values(o, p.allowedIPs), ", ")))
  }

  function EndpointLines(o: Outside, p: Peer): seq<string> {
    if p.endpoint.Some? then [Setting("Endpoint", FormatEndpoint(o, p.endpoint.value))] else []
  }

  function KeepaliveLines(p: Peer): seq<string> {
    When(p.keepalive != 0, Setting("PersistentKeepalive", Itoa(WholeSeconds(p.keepalive))))
  }

  function RestLines(o: Outside, p: Peer): seq<string> {
    NetLines(o, p) + EndpointLines(o, p) + KeepaliveLines(p)
  }

  function PeerLines(o: Outside, p: Peer): seq<string> {
    ["[Peer]"] + When(HasName(p), NameText(o, p)) + KeyLines(p) + RestLines(o, p)
  }

  /** The sections of the peers, separated by empty lines. */
  function PeersLines(o: Outside, ps: seq<Peer>): seq<string>
  {
    if ps == [] then []
    else PeersLines(o, ps[..|ps| - 1]) + SectionLines(o, |ps| - 1, ps[|ps| - 1])
  }

  function SectionLines(o: Outside, i: int, p: Peer): seq<string> {
    Gap(i) + PeerLines(o, p)
  }

  function Gap(i: int): seq<string> {
    When(i > 0, "")
  }

  function SettingLines(d: Device): seq<string> {
    When(d.listenPort != 0, Setting("ListenPort", Itoa(d.listenPort)))
    + When(d.firewallMark != 0, Setting("FwMark", MarkText(d.firewallMark)))
    + When(d.hasPrivateKey, Setting("PrivateKey", KeyText(d.privateKey)))
  }

  function HeaderLines(d: Device): seq<string> {
    ["[Interface]"] + SettingLines(d) + [""]
  }

  function DeviceLines(o: Outside, d: Device): seq<string> {
    HeaderLines(d) + PeersLines(o, d.peers)
  }

  /** A name that the file may not hold stops the encoder. */
  predicate NameOk(p: Peer) {
    HasName(p) ==> ValidName(p.name.value)
  }

  /** The first peer whose name stops the encoder. */
  function FirstBadName(ps: seq<Peer>): (bad: Option<nat>)
    ensures bad.Some? ==> bad.value < |ps|
  {
    if ps == [] then None
    else
      var earlier := FirstBadName(ps[..|ps| - 1]);
      if earlier.Some? then earlier
      else if NameOk(ps[|ps| - 1]) then None
      else Some(|ps| - 1)
  }

  lemma {:induction false} FirstBadNameStays(ps: seq<Peer>, n: nat)
    requires n <= |ps| && FirstBadName(ps[..n]).Some?
    ensures FirstBadName(ps) == FirstBadName(ps[..n])
    decreases |ps|
  {
    if n < |ps| {
      assert ps[..|ps| - 1][..n] == ps[..n];
      FirstBadNameStays(ps[..|ps| - 1], n);
    } else {
      Whole(ps);
    }
  }

  // ----- the encoder -----

  /** An io.Writer that text is printed to line by line. */
  class Writer {
    var text: string
    ghost var lines: seq<string>

    ghost predicate Valid()
      reads this
    {
      text == Unlines(lines)
    }

    constructor ()
      ensures Valid() && lines == []
    {
      text, lines := "", [];
    }

    method Println(line: string)
      requires Valid()
      modifies this
      ensures Valid() && lines == old(lines) + [line]
    {
      text := text + line + "\n";
      lines := lines + [line];
      assert lines[..|lines| - 1] == old(lines);
    }
  }

  method AllowedIPValues(o: Outside, nets: seq<Cidr>) returns (values: seq<string>)
    ensures values == Values(o, nets)
  {
    values := [];
    for i := 0 to |nets|
      invariant values == Values(o, nets[..i])
    {
      Snoc(nets, i);
      values := values + [WriteCidr(o, nets[i])];
    }
    Whole(nets);
  }

  /** The optional fields after the keys of a peer. */
  method EncodeRest(w: Writer, o: Outside, p: Peer)
    requires w.Valid()
    modifies w
    ensures w.Valid() && w.lines == old(w.lines) + RestLines(o, p)
  {
    ghost var was := w.lines;
    Assoc(was, [], []);
    var values := AllowedIPValues(o, p.allowedIPs);
    if |p.allowedIPs| > 0 {
      w.Println(Setting("AllowedIPs", Join(values, ", ")));
    }
    ghost var part := NetLines(o, p);
    assert w.lines == was + part;
    if p.endpoint.Some? {
      w.Println(Setting("Endpoint", FormatEndpoint(o, p.endpoint.value)));
    }
    Assoc(was, part, EndpointLines(o, p));
    part := part + EndpointLines(o, p);
    assert w.lines == was + part;
    if p.keepalive != 0 {
      w.Println(Setting("PersistentKeepalive", Itoa(WholeSeconds(p.keepalive))));
    }
    Assoc(was, part, KeepaliveLines(p));
  }

  method EncodePeer(w: Writer, o: Outside, p: Peer) returns (ok: bool)
    requires w.Valid()
    modifies w
    ensures w.Valid() && ok == NameOk(p)
    ensures w.lines == old(w.lines) + if ok then PeerLines(o, p) else ["[Peer]"]
  {
    hide KeyText, ValidName, Unlines, RestLines;
    ghost var was := w.lines;
    w.Println("[Peer]");
    ghost var part := ["[Peer]"];
    if p.name.Some? && p.name.value != "" {
      if !ValidName(p.name.value) {
        return false;
      }
      w.Println(NamePrefix() + " = " + o.writeName(p.name.value));
    }
    Assoc(was, part, When(HasName(p), NameText(o, p)));
    part := part + When(HasName(p), NameText(o, p));
    assert w.lines == was + part;
    w.Println(Setting("PublicKey", KeyText(p.publicKey)));
    if p.hasPresharedKey {
      w.Println(Setting("PresharedKey", KeyText(p.presharedKey)));
    }
    Assoc(was + part, [Setting("PublicKey", KeyText(p.publicKey))],
          When(p.hasPresharedKey, Setting("PresharedKey", KeyText(p.presharedKey))));
    Assoc(was, part, KeyLines(p));
    part := part + KeyLines(p);
    assert w.lines == was + part;
    EncodeRest(w, o, p);
    Assoc(was, part, RestLines(o, p));
    ok := true;
  }

  method EncodeSettings(w: Writer, d: Device)
    requires w.Valid()
    modifies w
    ensures w.Valid() && w.lines == old(w.lines) + SettingLines(d)
  {
    hide Itoa, MarkText, KeyText, Unlines;
    ghost var was := w.lines;
    Assoc(was, [], []);
    if d.listenPort != 0 {
      w.Println(Setting("ListenPort", Itoa(d.listenPort)));
    }
    ghost var part := When(d.listenPort != 0, Setting("ListenPort", Itoa(d.listenPort)));
    assert w.lines == was + part;
    if d.firewallMark != 0 {
      w.Println(Setting("FwMark", MarkText(d.firewallMark)));
    }
    Assoc(was, part, When(d.firewallMark != 0, Setting("FwMark", MarkText(d.firewallMark))));
    part := part + When(d.firewallMark != 0, Setting("FwMark", MarkText(d.firewallMark)));
    assert w.lines == was + part;
    if d.hasPrivateKey {
      w.Println(Setting("PrivateKey", KeyText(d.privateKey)));
    }
    Assoc(was, part, When(d.hasPrivateKey, Setting("PrivateKey", KeyText(d.privateKey))));
  }

  method EncodeHeader(w: Writer, d: Device)
    requires w.Valid() && w.lines == []
    modifies w
    ensures w.Valid() && w.lines == HeaderLines(d)
  {
    hide SettingLines, Unlines;
    w.Println("[Interface]");
    EncodeSettings(w, d);
    w.Println("");
  }

  method EncodeSection(w: Writer, o: Outside, i: nat, p: Peer) returns (ok: bool)
    requires w.Valid()
    modifies w
    ensures w.Valid() && ok == NameOk(p)
    ensures w.lines == old(w.lines) + if ok then SectionLines(o, i, p) else Gap(i) + ["[Peer]"]
  {
    ghost var was := w.lines;
    Assoc(was, [], []);
    if i > 0 {
      w.Println("");
    }
    assert w.lines == was + Gap(i);
    ok := EncodePeer(w, o, p);
    Assoc(was, Gap(i), if ok then PeerLines(o, p) else ["[Peer]"]);
  }

  /** On success the whole file; otherwise all before the section of the peer with a bad name. */
  method Encode(w: Writer, o: Outside, d: Device) returns (bad: Option<nat>)
    requires w.Valid() && w.lines == []
    modifies w
    ensures w.Valid() && bad == FirstBadName(d.peers)
    ensures bad.None? ==> w.lines == DeviceLines(o, d)
    ensures bad.Some? ==>
              w.lines == HeaderLines(d) + (PeersLines(o, d.peers[..bad.value]) + (Gap(bad.value) + ["[Peer]"]))
  {
    hide HeaderLines, SectionLines, NameOk, Unlines;
    EncodeHeader(w, d);
    ghost var was := w.lines;
    Assoc(was, [], []);
    assert d.peers[..0] == [];
    for i := 0 to |d.peers|
      invariant w.Valid()
      invariant FirstBadName(d.peers[..i]).None?
      invariant w.lines == was + PeersLines(o, d.peers[..i])
    {
      Snoc(d.peers, i);
      var ok := EncodeSection(w, o, i, d.peers[i]);
      Assoc(was, PeersLines(o, d.peers[..i]), if ok then SectionLines(o, i, d.peers[i]) else Gap(i) + ["[Peer]"]);
      if !ok {
        FirstBadNameStays(d.peers, i + 1);
        return Some(i);
      }
    }
    Whole(d.peers);
    bad := None;
  }
}
