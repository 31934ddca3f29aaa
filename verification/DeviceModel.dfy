/**
 * What a configuration means: a WireGuard device as a state, and a Config as a
 * program over it. Nil fields are not applied, peers and allowed IPs are appended or
 * replaced, and allowed-IP operations are applied in order.
 */
module DeviceModel {
  import opened Wrappers
  import opened WgTypes

  datatype PeerState = PeerState(presharedKey: Key, endpoint: Option<UDPAddr>, keepalive: int)

  /** `table` gives each allowed network to the one peer that owns it. */
  datatype State = State(
    privateKey: Key,
    listenPort: int,
    firewallMark: int,
    peers: map<Key, PeerState>,
    table: map<Cidr, Key>)

  const NEW_PEER := PeerState(ZeroKey(), None, 0)

  /** Only peers of the device own networks. */
  ghost predicate WellFormed(s: State) {
    forall c <- s.table :: s.table[c] in s.peers
  }

  /** A Go integer conversion to uint16 or uint32. */
  function Uint16(n: int): int { n % 0x1_0000 }
  function Uint32(n: int): int { n % 0x1_0000_0000 }

  /** uint16(d.Seconds()) of a Duration in nanoseconds. */
  function KeepaliveSeconds(d: int): int {
    Uint16(WholeSeconds(d))
  }

  // ----- allowed-IP operations -----

  function AddAll(nets: seq<Cidr>): (r: seq<AllowedIPConfig>)
    ensures |r| == |nets|
  {
    seq(|nets|, i requires 0 <= i < |nets| => AllowedIPConfig(nets[i], AllowedIPAdd))
  }

  /** The one ordered list of operations a peer entry is sent as. */
  function Entries(p: PeerConfig): seq<AllowedIPConfig> {
    AddAll(p.allowedIPs) + p.operations
  }

  /** Adding moves the network to `k`; removing works only for its owner. */
  function ApplyOp(table: map<Cidr, Key>, k: Key, op: AllowedIPConfig): map<Cidr, Key> {
    var c := Masked(op.net);
    if op.operation != AllowedIPRemove then table[c := k]
    else if c in table && table[c] == k then table - {c}
    else table
  }

  function ApplyOps(table: map<Cidr, Key>, k: Key, ops: seq<AllowedIPConfig>): map<Cidr, Key>
  {
    if ops == [] then table
    else ApplyOp(ApplyOps(table, k, ops[..|ops| - 1]), k, ops[|ops| - 1])
  }

  function DropOwner(table: map<Cidr, Key>, k: Key): map<Cidr, Key> {
    map c | c in table && table[c] != k :: table[c]
  }

  // ----- peers -----

  function RemovePeer(s: State, k: Key): State {
    s.(peers := s.peers - {k}, table := DropOwner(s.table, k))
  }

  function Settings(was: PeerState, p: PeerConfig): PeerState {
    PeerState(
      p.presharedKey.GetOr(was.presharedKey),
      if p.endpoint.Some? then p.endpoint else was.endpoint,
      if p.keepalive.Some? then KeepaliveSeconds(p.keepalive.value) else was.keepalive)
  }

  function Current(s: State, k: Key): PeerState {
    if k in s.peers then s.peers[k] else NEW_PEER
  }

  /** An entry that finds nothing to act on. */
  predicate Skipped(s: State, p: PeerConfig) {
    p.publicKey !in s.peers && (p.remove || p.updateOnly)
  }

  function ApplyPeer(s: State, p: PeerConfig): State {
    var k := p.publicKey;
    if Skipped(s, p) then s
    else if p.remove then RemovePeer(s, k)
    else
      var kept := if p.replaceAllowedIPs then DropOwner(s.table, k) else s.table;
      s.(peers := s.peers[k := Settings(Current(s, k), p)],
         table := ApplyOps(kept, k, Entries(p)))
  }

  function ApplyPeers(s: State, ps: seq<PeerConfig>): State
  {
    if ps == [] then s
    else ApplyPeer(ApplyPeers(s, ps[..|ps| - 1]), ps[|ps| - 1])
  }

  // ----- configurations -----

  /** The device fields of `cfg`, before any of its peers. */
  function ApplyHeader(s: State, cfg: Config): State {
    s.(privateKey := cfg.privateKey.GetOr(s.privateKey),
       listenPort := if cfg.listenPort.Some? then Uint16(cfg.listenPort.value) else s.listenPort,
       firewallMark := if cfg.firewallMark.Some? then Uint32(cfg.firewallMark.value) else s.firewallMark,
       peers := if cfg.replacePeers then map[] else s.peers,
       table := if cfg.replacePeers then map[] else s.table)
  }

  function ApplyConfig(s: State, cfg: Config): State {
    ApplyPeers(ApplyHeader(s, cfg), cfg.peers)
  }

  /** Several messages, applied in order. */
  function ApplyAll(s: State, cfgs: seq<Config>): State
  {
    if cfgs == [] then s
    else ApplyConfig(ApplyAll(s, cfgs[..|cfgs| - 1]), cfgs[|cfgs| - 1])
  }

  function KeySet(ps: seq<PeerConfig>): set<Key> {
    set p <- ps :: p.publicKey
  }

  // ----- laws -----

  lemma {:induction false} ApplyOpsConcat(table: map<Cidr, Key>, k: Key, a: seq<AllowedIPConfig>,
      b: seq<AllowedIPConfig>)
    ensures ApplyOps(table, k, a + b) == ApplyOps(ApplyOps(table, k, a), k, b)
    decreases |b|
  {
    if b == [] {
      assert a + b == a;
    } else {
      var b' := b[..|b| - 1];
      assert (a + b)[..|a + b| - 1] == a + b';
      ApplyOpsConcat(table, k, a, b');
    }
  }

  lemma {:induction false} ApplyPeersConcat(s: State, a: seq<PeerConfig>, b: seq<PeerConfig>)
    ensures ApplyPeers(s, a + b) == ApplyPeers(ApplyPeers(s, a), b)
    decreases |b|
  {
    if b == [] {
      assert a + b == a;
    } else {
      var b' := b[..|b| - 1];
      assert (a + b)[..|a + b| - 1] == a + b';
      ApplyPeersConcat(s, a, b');
    }
  }

  /** Peer entries never touch the key, port or mark of the device. */
  lemma {:induction false} ApplyPeersKeepsHeader(s: State, ps: seq<PeerConfig>)
    ensures var t := ApplyPeers(s, ps);
            t.privateKey == s.privateKey && t.listenPort == s.listenPort && t.firewallMark == s.firewallMark
  {
    if ps == [] {
    } else {
      ApplyPeersKeepsHeader(s, ps[..|ps| - 1]);
    }
  }

  /** Some operation names the network. */
  ghost predicate Mentions(ops: seq<AllowedIPConfig>, c: Cidr) {
    exists op <- ops :: Masked(op.net) == c
  }

  lemma {:induction false} MentionsSnoc(ops: seq<AllowedIPConfig>, op: AllowedIPConfig, c: Cidr)
    ensures Mentions(ops + [op], c) <==> Mentions(ops, c) || Masked(op.net) == c
  {
    hide Masked;
    assert op in ops + [op];
    assert forall x <- ops :: x in ops + [op];
  }

  /** Operations change nothing but the networks they name, and give those to no one but `k`. */
  lemma {:induction false} ApplyOpsOwners(table: map<Cidr, Key>, k: Key, ops: seq<AllowedIPConfig>)
    ensures var t := ApplyOps(table, k, ops);
            && (forall c :: !Mentions(ops, c) ==> (c in t <==> c in table) && (c in t ==> t[c] == table[c]))
            && (forall c <- t :: t[c] == k || (c in table && t[c] == table[c]))
  {
    hide Masked, Mentions;
    if ops == [] {
    } else {
      var init, op := ops[..|ops| - 1], ops[|ops| - 1];
      ApplyOpsOwners(table, k, init);
      assert ops == init + [op];
      forall c: Cidr
        ensures Mentions(ops, c) <==> Mentions(init, c) || Masked(op.net) == c
      {
        MentionsSnoc(init, op, c);
      }
    }
  }

  lemma {:induction false} ApplyPeerWellFormed(s: State, p: PeerConfig)
    requires WellFormed(s)
    ensures WellFormed(ApplyPeer(s, p))
  {
    hide ApplyOps, Masked, Mentions, Entries, Settings, Current, WellFormed, RemovePeer;
    if !Skipped(s, p) {
      if p.remove {
        RemovePeerWellFormed(s, p.publicKey);
      } else {
        var kept := if p.replaceAllowedIPs then DropOwner(s.table, p.publicKey) else s.table;
        DropKeepsOwners(s, p.publicKey);
        ApplyOpsWellFormed(s.(table := kept), p.publicKey, Entries(p), Settings(Current(s, p.publicKey), p));
      }
    }
  }

  lemma {:induction false} RemovePeerWellFormed(s: State, k: Key)
    requires WellFormed(s)
    ensures WellFormed(RemovePeer(s, k))
  {
  }

  lemma {:induction false} DropKeepsOwners(s: State, k: Key)
    requires WellFormed(s)
    ensures WellFormed(s.(table := DropOwner(s.table, k)))
  {
  }

  /** A peer that is there may take networks. */
  lemma {:induction false} ApplyOpsWellFormed(s: State, k: Key, ops: seq<AllowedIPConfig>, settings: PeerState)
    requires WellFormed(s)
    ensures WellFormed(s.(peers := s.peers[k := settings], table := ApplyOps(s.table, k, ops)))
  {
    hide ApplyOps, Mentions, Masked;
    ApplyOpsOwners(s.table, k, ops);
    var t := ApplyOps(s.table, k, ops);
    forall c | c in t
      ensures t[c] in s.peers[k := settings]
    {
      assert t[c] == k || (c in s.table && t[c] == s.table[c]);
    }
  }

  /** No configuration leaves a network with an owner that is not a peer. */
  lemma {:induction false} ApplyPeersWellFormed(s: State, ps: seq<PeerConfig>)
    requires WellFormed(s)
    ensures WellFormed(ApplyPeers(s, ps))
  {
    hide WellFormed, ApplyPeer;
    if ps == [] {
    } else {
      ApplyPeersWellFormed(s, ps[..|ps| - 1]);
      ApplyPeerWellFormed(ApplyPeers(s, ps[..|ps| - 1]), ps[|ps| - 1]);
    }
  }

  lemma {:induction false} ApplyConfigWellFormed(s: State, cfg: Config)
    requires WellFormed(s)
    ensures WellFormed(ApplyConfig(s, cfg))
  {
    ApplyPeersWellFormed(ApplyHeader(s, cfg), cfg.peers);
  }
}
