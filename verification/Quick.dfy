/**
 * wg-quick up and down as fallible steps over links, routes and policy rules:
 * internal/wgquick/quick_linux.go and internal/wgquick/config.go.
 */
module Quick {
  import opened Wrappers
  import opened WgTypes
  import opened Seqs
  import opened Numbers
  import opened Addresses

  // ----- configuration -----

  datatype QuickPeer = QuickPeer(
    publicKey: Key, presharedKey: Option<Key>, allowedIPs: seq<Cidr>, endpoint: Option<UDPAddr>, keepalive: Option<int>)

  datatype QuickConfig = QuickConfig(
    name: string,
    privateKey: Option<Key>,
    listenPort: Option<int>,
    firewallMark: Option<int>,
    addresses: seq<Cidr>,
    dns: seq<IP>,
    mtu: int,
    table: string,
    preUp: seq<string>,
    postUp: seq<string>,
    preDown: seq<string>,
    postDown: seq<string>,
    peers: seq<QuickPeer>)

  const DEFAULT_TABLE := 51820

  /** The routing table of isolated default routes, and the mark that escapes it. */
  function RouteTable(c: QuickConfig): int {
    var number := if c.table != "" && c.table != "auto" && c.table != "off" then Atoi(c.table) else None;
    if number.Some? then number.value else c.firewallMark.GetOr(DEFAULT_TABLE)
  }

  datatype Mode = Off | Explicit | Auto

  function RouteMode(c: QuickConfig): Mode {
    if c.table == "off" then Off
    else if c.table != "" && c.table != "auto" then Explicit
    else Auto
  }

  predicate IsDefaultRoute(c: Cidr) {
    match c
    case Cidr4(_, ones) => ones == 0
    case Cidr6(_, ones) => ones == 0
  }

  datatype Family = V4 | V6

  function FamilyOf(c: Cidr): Family {
    if Spoken(c).Cidr4? then V4 else V6
  }

  /** The families of the default routes in a list of networks. */
  function DefaultFamilies(nets: seq<Cidr>): set<Family>
  {
    if nets == [] then {}
    else
      var last := nets[|nets| - 1];
      DefaultFamilies(nets[..|nets| - 1]) + if IsDefaultRoute(last) then {FamilyOf(last)} else {}
  }

  function AllNets(ps: seq<QuickPeer>): seq<Cidr>
  {
    if ps == [] then [] else AllNets(ps[..|ps| - 1]) + ps[|ps| - 1].allowedIPs
  }

  function Isolated(c: QuickConfig): set<Family> {
    if RouteMode(c) == Auto then DefaultFamilies(AllNets(c.peers)) else {}
  }

  function EntryOf(p: QuickPeer): PeerConfig {
    PeerConfig(None, p.publicKey, false, false, p.presharedKey, p.endpoint, p.keepalive, true, p.allowedIPs, [])
  }

  /** The entry has what the peer of the file has, and replaces the networks of the peer on the device. */
  predicate Carries(e: PeerConfig, p: QuickPeer) {
    && e.publicKey == p.publicKey && e.presharedKey == p.presharedKey && e.endpoint == p.endpoint
    && e.keepalive == p.keepalive && e.allowedIPs == p.allowedIPs && e.operations == []
    && e.replaceAllowedIPs && !e.remove && !e.updateOnly && e.name.None?
  }

  ghost predicate AllCarried(es: seq<PeerConfig>, ps: seq<QuickPeer>) {
    |es| == |ps| && forall i :: 0 <= i < |ps| ==> Carries(es[i], ps[i])
  }

  lemma {:induction false} EntriesCarry(ps: seq<QuickPeer>)
    ensures AllCarried(EntriesOf(ps), ps)
  {
    if ps == [] {
    } else {
      EntriesCarry(ps[..|ps| - 1]);
    }
  }

  function EntriesOf(ps: seq<QuickPeer>): seq<PeerConfig>
  {
    if ps == [] then [] else EntriesOf(ps[..|ps| - 1]) + [EntryOf(ps[|ps| - 1])]
  }

  /** The configuration of the device; default routes in auto mode decide its mark. */
  function DeviceConfig(c: QuickConfig): Config {
    Config(c.privateKey, c.listenPort, if Isolated(c) != {} then Some(RouteTable(c)) else c.firewallMark,
           true, EntriesOf(c.peers))
  }

  method WireGuardConfig(c: QuickConfig) returns (cfg: Config)
    ensures cfg == Config(c.privateKey, c.listenPort, c.firewallMark, true, EntriesOf(c.peers))
    ensures AllCarried(cfg.peers, c.peers)
  {
    EntriesCarry(c.peers);
    cfg := Config(None, None, None, true, []);
    if c.privateKey.Some? {
      cfg := cfg.(privateKey := c.privateKey);
    }
    if c.listenPort.Some? {
      cfg := cfg.(listenPort := c.listenPort);
    }
    if c.firewallMark.Some? {
      cfg := cfg.(firewallMark := c.firewallMark);
    }
    ghost var header := cfg;
    for i := 0 to |c.peers|
      invariant cfg == header.(peers := EntriesOf(c.peers[..i]))
    {
      Snoc(c.peers, i);
      var p := c.peers[i];
      var pc := EMPTY_PEER_CONFIG.(publicKey := p.publicKey, replaceAllowedIPs := true, allowedIPs := p.allowedIPs);
      if p.presharedKey.Some? {
        pc := pc.(presharedKey := p.presharedKey);
      }
      if p.endpoint.Some? {
        pc := pc.(endpoint := p.endpoint);
      }
      if p.keepalive.Some? {
        pc := pc.(keepalive := p.keepalive);
      }
      assert pc == EntryOf(p);
      cfg := cfg.(peers := cfg.peers + [pc]);
    }
    Whole(c.peers);
  }

  lemma {:induction false} DefaultFamiliesConcat(a: seq<Cidr>, b: seq<Cidr>)
    ensures DefaultFamilies(a + b) == DefaultFamilies(a) + DefaultFamilies(b)
    decreases |b|
  {
    if b == [] {
      Assoc(a, [], []);
    } else {
      var init := b[..|b| - 1];
      assert (a + b)[..|a + b| - 1] == a + init;
      DefaultFamiliesConcat(a, init);
    }
  }

  lemma {:induction false} DefaultAt(nets: seq<Cidr>, i: nat)
    requires i < |nets| && IsDefaultRoute(nets[i])
    ensures FamilyOf(nets[i]) in DefaultFamilies(nets)
  {
    hide FamilyOf, IsDefaultRoute;
    if i == |nets| - 1 {
    } else {
      DefaultAt(nets[..|nets| - 1], i);
    }
  }

  lemma {:induction false} NetsAt(ps: seq<QuickPeer>, i: nat)
    requires i < |ps|
    ensures DefaultFamilies(ps[i].allowedIPs) <= DefaultFamilies(AllNets(ps))
  {
    var init, nets := ps[..|ps| - 1], ps[|ps| - 1].allowedIPs;
    DefaultFamiliesConcat(AllNets(init), nets);
    if i == |init| {
    } else {
      NetsAt(init, i);
    }
  }

  method HasDefaultRoute(c: QuickConfig) returns (b: bool)
    ensures b == (DefaultFamilies(AllNets(c.peers)) != {})
  {
    hide FamilyOf, IsDefaultRoute;
    for i := 0 to |c.peers|
      invariant DefaultFamilies(AllNets(c.peers[..i])) == {}
    {
      Snoc(c.peers, i);
      var nets := c.peers[i].allowedIPs;
      for j := 0 to |nets|
        invariant DefaultFamilies(nets[..j]) == {}
      {
        Snoc(nets, j);
        if IsDefaultRoute(nets[j]) {
          DefaultAt(nets, j);
          NetsAt(c.peers, i);
          return true;
        }
      }
      Whole(nets);
      DefaultFamiliesConcat(AllNets(c.peers[..i]), nets);
    }
    Whole(c.peers);
    b := false;
  }

  /** The loop of Down over the default routes: has4 and has6. */
  method FamiliesOf(c: QuickConfig) returns (families: set<Family>)
    ensures families == DefaultFamilies(AllNets(c.peers))
  {
    hide FamilyOf, IsDefaultRoute;
    families := {};
    for i := 0 to |c.peers|
      invariant families == DefaultFamilies(AllNets(c.peers[..i]))
    {
      Snoc(c.peers, i);
      var nets := c.peers[i].allowedIPs;
      ghost var before := families;
      for j := 0 to |nets|
        invariant families == before + DefaultFamilies(nets[..j])
      {
        Snoc(nets, j);
        if !IsDefaultRoute(nets[j]) {
          continue;
        }
        families := families + {FamilyOf(nets[j])};
      }
      Whole(nets);
      DefaultFamiliesConcat(AllNets(c.peers[..i]), nets);
    }
    Whole(c.peers);
  }
}
