/** What the model of a device comes to: every field and every network, one entry at a time. */
module DeviceLaws {
  import opened Wrappers
  import opened WgTypes
  import opened DeviceModel

  /** The value of a field that an entry sets, or what it was. */
  predicate Sets<T(==)>(value: Option<T>, was: T, now: T) {
    now == if value.Some? then value.value else was
  }

  /** The last operation that names a network decides whether the peer has it. */
  lemma {:induction false} LastOperation(table: map<Cidr, Key>, k: Key, ops: seq<AllowedIPConfig>, i: nat)
    requires i < |ops| && forall j :: i < j < |ops| ==> Masked(ops[j].net) != Masked(ops[i].net)
    ensures var c, t := Masked(ops[i].net), ApplyOps(table, k, ops);
            (c in t && t[c] == k) <==> ops[i].operation != AllowedIPRemove
  {
    hide Masked;
    if i == |ops| - 1 {
    } else {
      LastOperation(table, k, ops[..|ops| - 1], i);
    }
  }

  /** Every other peer keeps its settings; the networks of others change only where an operation names them. */
  lemma {:induction false} OthersStay(s: State, p: PeerConfig, j: Key, c: Cidr)
    requires j != p.publicKey && !Mentions(Entries(p), c)
    ensures var t := ApplyPeer(s, p);
            && (j in t.peers <==> j in s.peers) && (j in t.peers ==> t.peers[j] == s.peers[j])
            && ((c in t.table && t.table[c] == j) <==> (c in s.table && s.table[c] == j))
            && t.privateKey == s.privateKey && t.listenPort == s.listenPort && t.firewallMark == s.firewallMark
  {
    hide Entries, Mentions, Masked, Settings, ApplyOps;
    ApplyOpsOwners(s.table, p.publicKey, Entries(p));
    ApplyOpsOwners(DropOwner(s.table, p.publicKey), p.publicKey, Entries(p));
  }

  /** An entry that acts sets the fields it has; a new peer starts without any. */
  lemma {:induction false} FieldsAreSet(s: State, p: PeerConfig)
    requires !p.remove && (p.publicKey in s.peers || !p.updateOnly)
    ensures var k, t := p.publicKey, ApplyPeer(s, p);
            var was := if k in s.peers then s.peers[k] else PeerState(ZeroKey(), None, 0);
            && k in t.peers
            && Sets(p.presharedKey, was.presharedKey, t.peers[k].presharedKey)
            && t.peers[k].endpoint == (if p.endpoint.Some? then p.endpoint else was.endpoint)
            && (p.keepalive.None? ==> t.peers[k].keepalive == was.keepalive)
            && (p.keepalive.Some? && 0 <= p.keepalive.value < 65536 * 1_000_000_000 ==>
                  t.peers[k].keepalive == p.keepalive.value / 1_000_000_000)
  {
    hide Entries, ApplyOps, Masked, DropOwner;
    if p.keepalive.Some? && 0 <= p.keepalive.value < 65536 * 1_000_000_000 {
      assert 0 <= p.keepalive.value / 1_000_000_000 < 65536;
    }
  }

  /**
   * Which networks an entry leaves its peer besides those it names: none when it removes the peer or
   * replaces them, otherwise those the peer had. An update of a peer that is not there does nothing.
   */
  lemma {:induction false} NetworksLeft(s: State, p: PeerConfig, c: Cidr)
    requires WellFormed(s) && (p.remove || !Mentions(Entries(p), c))
    ensures var k, t := p.publicKey, ApplyPeer(s, p);
            && (p.remove ==> k !in t.peers)
            && (p.updateOnly && k !in s.peers ==> t == s)
            && ((c in t.table && t.table[c] == k) <==>
                  c in s.table && s.table[c] == k && !p.remove && !p.replaceAllowedIPs)
            && (p.remove && c in s.table && s.table[c] != k ==> c in t.table && t.table[c] == s.table[c])
  {
    hide Entries, Mentions, Masked, Settings, ApplyOps;
    ApplyOpsOwners(s.table, p.publicKey, Entries(p));
    ApplyOpsOwners(DropOwner(s.table, p.publicKey), p.publicKey, Entries(p));
  }

  /** The device fields: numbers of 16 and 32 bits, and peers that are kept or all replaced. */
  lemma {:induction false} HeaderIsSet(s: State, cfg: Config)
    ensures var t := ApplyHeader(s, cfg);
            && Sets(cfg.privateKey, s.privateKey, t.privateKey)
            && (cfg.listenPort.None? ==> t.listenPort == s.listenPort)
            && (cfg.listenPort.Some? && 0 <= cfg.listenPort.value < 65536 ==> t.listenPort == cfg.listenPort.value)
            && (cfg.firewallMark.None? ==> t.firewallMark == s.firewallMark)
            && (cfg.firewallMark.Some? && 0 <= cfg.firewallMark.value < 4294967296 ==>
                  t.firewallMark == cfg.firewallMark.value)
            && (if cfg.replacePeers then t.peers == map[] && t.table == map[]
                else t.peers == s.peers && t.table == s.table)
  {
  }
}
