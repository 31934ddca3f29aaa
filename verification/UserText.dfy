/** Writing a configuration in the userspace protocol: writeConfig of internal/wguser/configure.go. */
module UserText {
  import opened Wrappers
  import opened WgTypes
  import opened Seqs
  import opened Numbers
  import opened Addresses
  import opened ConfigText

  // ----- the lines -----

  function HexText(b: seq<byte>): string
  {
    if b == [] then [] else HexText(b[..|b| - 1]) + [DigitChar(b[|b| - 1] / 16), DigitChar(b[|b| - 1] % 16)]
  }

  /** A key and its value; a line is both around an equals sign. */
  function LineOf(pair: (string, string)): string {
    pair.0 + "=" + pair.1
  }

  function LinesOf(pairs: seq<(string, string)>): (r: seq<string>)
    ensures |r| == |pairs|
  {
    if pairs == [] then [] else LinesOf(pairs[..|pairs| - 1]) + [LineOf(pairs[|pairs| - 1])]
  }

  function HeaderPairs(cfg: Config): seq<(string, string)> {
    When(cfg.privateKey.Some?, ("private_key", HexText(cfg.privateKey.GetOr(ZeroKey()))))
    + When(cfg.listenPort.Some?, ("listen_port", Itoa(cfg.listenPort.GetOr(0))))
    + When(cfg.firewallMark.Some?, ("fwmark", Itoa(cfg.firewallMark.GetOr(0))))
    + When(cfg.replacePeers, ("replace_peers", "true"))
  }

  function FlagPairs(p: PeerConfig): seq<(string, string)> {
    [("public_key", HexText(p.publicKey))]
    + When(p.remove, ("remove", "true"))
    + When(p.updateOnly, ("update_only", "true"))
  }

  function EndpointPairs(o: Outside, p: PeerConfig): seq<(string, string)> {
    if p.endpoint.Some? then [("endpoint", FormatEndpoint(o, p.endpoint.value))] else []
  }

  function SettingPairs(o: Outside, p: PeerConfig): seq<(string, string)> {
    When(p.presharedKey.Some?, ("preshared_key", HexText(p.presharedKey.GetOr(ZeroKey()))))
    + EndpointPairs(o, p)
    + When(p.keepalive.Some?, ("persistent_keepalive_interval", Itoa(WholeSeconds(p.keepalive.GetOr(0)))))
    + When(p.replaceAllowedIPs, ("replace_allowed_ips", "true"))
  }

  function NetPairs(o: Outside, nets: seq<Cidr>): seq<(string, string)>
  {
    if nets == [] then []
    else NetPairs(o, nets[..|nets| - 1]) + [("allowed_ip", WriteCidr(o, nets[|nets| - 1]))]
  }

  function OperationText(o: Outside, op: AllowedIPConfig): string {
    (if op.operation == AllowedIPRemove then "-" else "") + WriteCidr(o, op.net)
  }

  function OperationPairs(o: Outside, ops: seq<AllowedIPConfig>): seq<(string, string)>
  {
    if ops == [] then []
    else OperationPairs(o, ops[..|ops| - 1]) + [("allowed_ip", OperationText(o, ops[|ops| - 1]))]
  }

  function PeerPairs(o: Outside, p: PeerConfig): seq<(string, string)> {
    FlagPairs(p) + SettingPairs(o, p) + NetPairs(o, p.allowedIPs) + OperationPairs(o, p.operations)
  }

  function PeersPairs(o: Outside, ps: seq<PeerConfig>): seq<(string, string)>
  {
    if ps == [] then [] else PeersPairs(o, ps[..|ps| - 1]) + PeerPairs(o, ps[|ps| - 1])
  }

  function ConfigPairs(o: Outside, cfg: Config): seq<(string, string)> {
    HeaderPairs(cfg) + PeersPairs(o, cfg.peers)
  }

  // ----- the writer -----

  /** A writer whose lines are key/value pairs. */
  class PairWriter {
    const w: Writer
    ghost var pairs: seq<(string, string)>

    ghost predicate Valid()
      reads this, w
    {
      w.Valid() && w.lines == LinesOf(pairs)
    }

    constructor (w: Writer)
      requires w.Valid() && w.lines == []
      ensures Valid() && pairs == [] && this.w == w
    {
      this.w, pairs := w, [];
    }

    method Print(key: string, value: string)
      requires Valid()
      modifies this, w
      ensures Valid() && pairs == old(pairs) + [(key, value)]
    {
      w.Println(key + "=" + value);
      pairs := pairs + [(key, value)];
      assert pairs[..|pairs| - 1] == old(pairs);
    }
  }

  method WriteHeader(out: PairWriter, cfg: Config)
    requires out.Valid() && out.pairs == []
    modifies out, out.w
    ensures out.Valid() && out.pairs == HeaderPairs(cfg)
  {
    hide HexText, Itoa, LinesOf;
    ghost var part := [];
    if cfg.privateKey.Some? {
      out.Print("private_key", HexText(cfg.privateKey.value));
    }
    part := When(cfg.privateKey.Some?, ("private_key", HexText(cfg.privateKey.GetOr(ZeroKey()))));
    assert out.pairs == part;
    Assoc(part, [], []);
    if cfg.listenPort.Some? {
      out.Print("listen_port", Itoa(cfg.listenPort.value));
    }
    part := part + When(cfg.listenPort.Some?, ("listen_port", Itoa(cfg.listenPort.GetOr(0))));
    assert out.pairs == part;
    Assoc(part, [], []);
    if cfg.firewallMark.Some? {
      out.Print("fwmark", Itoa(cfg.firewallMark.value));
    }
    part := part + When(cfg.firewallMark.Some?, ("fwmark", Itoa(cfg.firewallMark.GetOr(0))));
    assert out.pairs == part;
    Assoc(part, [], []);
    if cfg.replacePeers {
      out.Print("replace_peers", "true");
    }
  }

  method WriteFlags(out: PairWriter, p: PeerConfig)
    requires out.Valid()
    modifies out, out.w
    ensures out.Valid() && out.pairs == old(out.pairs) + FlagPairs(p)
  {
    hide HexText;
    ghost var was := out.pairs;
    ghost var part := [("public_key", HexText(p.publicKey))];
    out.Print("public_key", HexText(p.publicKey));
    if p.remove {
      out.Print("remove", "true");
    }
    Assoc(was, part, When(p.remove, ("remove", "true")));
    part := part + When(p.remove, ("remove", "true"));
    Assoc(was + part, [], []);
    if p.updateOnly {
      out.Print("update_only", "true");
    }
    Assoc(was, part, When(p.updateOnly, ("update_only", "true")));
  }

  method WriteSettings(out: PairWriter, o: Outside, p: PeerConfig)
    requires out.Valid()
    modifies out, out.w
    ensures out.Valid() && out.pairs == old(out.pairs) + SettingPairs(o, p)
  {
    hide HexText, FormatEndpoint, Itoa, WholeSeconds, LinesOf;
    ghost var was := out.pairs;
    Assoc(was, [], []);
    if p.presharedKey.Some? {
      out.Print("preshared_key", HexText(p.presharedKey.value));
    }
    ghost var part := When(p.presharedKey.Some?, ("preshared_key", HexText(p.presharedKey.GetOr(ZeroKey()))));
    assert out.pairs == was + part;
    if p.endpoint.Some? {
      out.Print("endpoint", FormatEndpoint(o, p.endpoint.value));
    }
    Assoc(was, part, EndpointPairs(o, p));
    part := part + EndpointPairs(o, p);
    assert out.pairs == was + part;
    if p.keepalive.Some? {
      out.Print("persistent_keepalive_interval", Itoa(WholeSeconds(p.keepalive.value)));
    }
    ghost var keepalive := When(p.keepalive.Some?,
      ("persistent_keepalive_interval", Itoa(WholeSeconds(p.keepalive.GetOr(0)))));
    Assoc(was, part, keepalive);
    part := part + keepalive;
    assert out.pairs == was + part;
    if p.replaceAllowedIPs {
      out.Print("replace_allowed_ips", "true");
    }
    Assoc(was, part, When(p.replaceAllowedIPs, ("replace_allowed_ips", "true")));
  }

  method WritePeer(out: PairWriter, o: Outside, p: PeerConfig)
    requires out.Valid()
    modifies out, out.w
    ensures out.Valid() && out.pairs == old(out.pairs) + PeerPairs(o, p)
  {
    hide FlagPairs, SettingPairs, OperationText, WriteCidr;
    ghost var was := out.pairs;
    WriteFlags(out, p);
    WriteSettings(out, o, p);
    ghost var part := FlagPairs(p) + SettingPairs(o, p);
    Assoc(was, FlagPairs(p), SettingPairs(o, p));
    Assoc(was + part, [], []);
    assert p.allowedIPs[..0] == [] && p.operations[..0] == [];
    for i := 0 to |p.allowedIPs|
      invariant out.Valid() && out.pairs == (was + part) + NetPairs(o, p.allowedIPs[..i])
    {
      Snoc(p.allowedIPs, i);
      out.Print("allowed_ip", WriteCidr(o, p.allowedIPs[i]));
      Assoc(was + part, NetPairs(o, p.allowedIPs[..i]), [("allowed_ip", WriteCidr(o, p.allowedIPs[i]))]);
    }
    Whole(p.allowedIPs);
    Assoc(was, part, NetPairs(o, p.allowedIPs));
    part := part + NetPairs(o, p.allowedIPs);
    Assoc(was + part, [], []);
    for i := 0 to |p.operations|
      invariant out.Valid() && out.pairs == (was + part) + OperationPairs(o, p.operations[..i])
    {
      Snoc(p.operations, i);
      WriteOperation(out, o, p.operations[i]);
      Assoc(was + part, OperationPairs(o, p.operations[..i]), [("allowed_ip", OperationText(o, p.operations[i]))]);
    }
    Whole(p.operations);
    Assoc(was, part, OperationPairs(o, p.operations));
  }

  method WriteOperation(out: PairWriter, o: Outside, op: AllowedIPConfig)
    requires out.Valid()
    modifies out, out.w
    ensures out.Valid() && out.pairs == old(out.pairs) + [("allowed_ip", OperationText(o, op))]
  {
    hide WriteCidr;
    var prefix := "";
    if op.operation == AllowedIPRemove {
      prefix := "-";
    }
    out.Print("allowed_ip", prefix + WriteCidr(o, op.net));
  }

  method WriteConfig(w: Writer, o: Outside, cfg: Config)
    requires w.Valid() && w.lines == []
    modifies w
    ensures w.Valid() && w.lines == LinesOf(ConfigPairs(o, cfg))
  {
    hide HeaderPairs, PeerPairs, LinesOf;
    var out := StartPairs(w);
    WriteHeader(out, cfg);
    ghost var was := out.pairs;
    Assoc(was, [], []);
    assert cfg.peers[..0] == [];
    for i := 0 to |cfg.peers|
      invariant out.Valid() && out.w == w && fresh(out)
      invariant out.pairs == was + PeersPairs(o, cfg.peers[..i])
    {
      Snoc(cfg.peers, i);
      WritePeer(out, o, cfg.peers[i]);
      Assoc(was, PeersPairs(o, cfg.peers[..i]), PeerPairs(o, cfg.peers[i]));
    }
    Whole(cfg.peers);
  }

  method StartPairs(w: Writer) returns (out: PairWriter)
    requires w.Valid() && w.lines == []
    ensures fresh(out) && out.w == w && out.Valid() && out.pairs == []
  {
    out := new PairWriter(w);
  }
}
