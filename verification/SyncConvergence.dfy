/**
 * Two update strategies compared: Sync keeps the device and removes what is not wanted,
 * setconf replaces all peers. They agree on the peers, the allowed-IP table or the whole
 * device exactly when the desired entries say enough about each key.
 */
module SyncConvergence {
  import opened Wrappers
  import opened WgTypes
  import opened DeviceModel
  import opened Batches
  import opened Conf

  // ----- the effect of Sync -----

  function RemoveAll(s: State, ks: set<Key>): State {
    s.(peers := s.peers - ks, table := map c | c in s.table && s.table[c] !in ks :: s.table[c])
  }

  lemma {:induction false} RemovalsMeaning(s: State, current: seq<Peer>, wanted: set<Key>)
    requires WellFormed(s)
    ensures ApplyPeers(s, Removals(current, wanted)) == RemoveAll(s, PeerKeys(current) - wanted)
  {
    if current == [] {
      assert RemoveAll(s, {}) == s;
    } else {
      var init, p := current[..|current| - 1], current[|current| - 1];
      RemovalsMeaning(s, init, wanted);
      PeerKeysSnoc(init, p);
      assert current == init + [p];
      var gone := PeerKeys(init) - wanted;
      if p.publicKey in wanted {
        assert Removals(current, wanted) == Removals(init, wanted);
        assert PeerKeys(current) - wanted == gone;
      } else {
        var rs := Removals(current, wanted);
        assert rs[..|rs| - 1] == Removals(init, wanted);
        assert PeerKeys(current) - wanted == gone + {p.publicKey};
        RemoveOneMore(s, gone, p.publicKey);
      }
    }
  }

  lemma {:induction false} RemoveOneMore(s: State, ks: set<Key>, k: Key)
    requires WellFormed(s)
    ensures ApplyPeer(RemoveAll(s, ks), Removal(k)) == RemoveAll(s, ks + {k})
  {
    var t := RemoveAll(s, ks);
    assert s.peers - (ks + {k}) == t.peers - {k};
    if k in t.peers {
      assert DropOwner(t.table, k) == RemoveAll(s, ks + {k}).table;
    } else {
      assert t.table == RemoveAll(s, ks + {k}).table;
    }
  }

  /** Sync applies the desired entries to the device as it is, then removes the peers not wanted. */
  lemma {:induction false} SyncMeaning(s: State, current: seq<Peer>, cfg: Config)
    requires WellFormed(s) && Lists(current, s)
    ensures ApplyConfig(s, SyncConfig(current, cfg))
         == RemoveAll(ApplyConfig(s, cfg), s.peers.Keys - KeySet(cfg.peers))
  {
    var wanted := KeySet(cfg.peers);
    ApplyPeersConcat(ApplyHeader(s, cfg), cfg.peers, Removals(current, wanted));
    ApplyConfigWellFormed(s, cfg);
    RemovalsMeaning(ApplyConfig(s, cfg), current, wanted);
    assert ApplyHeader(s, SyncConfig(current, cfg)) == ApplyHeader(s, cfg);
  }

  /** syncconf and setconf set or clear ReplacePeers before they apply the parsed configuration. */
  function WithReplace(cfg: Config, replace: bool): Config {
    Config(cfg.privateKey, cfg.listenPort, cfg.firewallMark, replace, cfg.peers)
  }

  function SyncResult(s: State, cfg: Config): State {
    RemoveAll(ApplyConfig(s, WithReplace(cfg, false)), s.peers.Keys - KeySet(cfg.peers))
  }

  function ReplaceResult(s: State, cfg: Config): State {
    ApplyConfig(s, WithReplace(cfg, true))
  }

  // ----- what the entries say about a key -----

  /** Some entry removes the peer, or creates it whether or not it is there. */
  ghost predicate Anchored(ps: seq<PeerConfig>, k: Key) {
    exists p <- ps :: p.publicKey == k && (p.remove || !p.updateOnly)
  }

  ghost predicate OwnsSettled(ps: seq<PeerConfig>, k: Key) {
    exists p <- ps :: p.publicKey == k && (p.remove || p.replaceAllowedIPs)
  }

  ghost predicate KeySettled(ps: seq<PeerConfig>, k: Key) {
    exists p <- ps :: p.publicKey == k && (p.remove || p.presharedKey.Some?)
  }

  ghost predicate EndpointSettled(ps: seq<PeerConfig>, k: Key) {
    exists p <- ps :: p.publicKey == k && (p.remove || p.endpoint.Some?)
  }

  ghost predicate KeepaliveSettled(ps: seq<PeerConfig>, k: Key) {
    exists p <- ps :: p.publicKey == k && (p.remove || p.keepalive.Some?)
  }

  /** Entries that only update a peer when it exists make the outcome depend on the past. */
  predicate NoUpdateOnly(ps: seq<PeerConfig>) {
    forall i :: 0 <= i < |ps| ==> !ps[i].updateOnly || ps[i].remove
  }

  // ----- ownership -----

  function Owned(table: map<Cidr, Key>, k: Key): set<Cidr> {
    set c | c in table && table[c] == k
  }

  /** The networks of a peer after its own operations: adding takes, removing gives up. */
  function OwnAfter(own: set<Cidr>, ops: seq<AllowedIPConfig>): set<Cidr>
  {
    if ops == [] then own
    else
      var before, op := OwnAfter(own, ops[..|ops| - 1]), ops[|ops| - 1];
      if op.operation == AllowedIPRemove then before - {Masked(op.net)} else before + {Masked(op.net)}
  }

  /** What the operations take from every other peer. */
  function Taken(ops: seq<AllowedIPConfig>): set<Cidr> {
    set op <- ops | op.operation != AllowedIPRemove :: Masked(op.net)
  }

  lemma {:induction false} OwnOperations(table: map<Cidr, Key>, k: Key, ops: seq<AllowedIPConfig>)
    ensures Owned(ApplyOps(table, k, ops), k) == OwnAfter(Owned(table, k), ops)
  {
    if ops == [] {
    } else {
      OwnOperations(table, k, ops[..|ops| - 1]);
    }
  }

  lemma {:induction false} OtherOperations(table: map<Cidr, Key>, k: Key, ops: seq<AllowedIPConfig>, other: Key)
    requires other != k
    ensures Owned(ApplyOps(table, k, ops), other) == Owned(table, other) - Taken(ops)
  {
    if ops == [] {
    } else {
      var init, op := ops[..|ops| - 1], ops[|ops| - 1];
      OtherOperations(table, k, init, other);
      TakenSnoc(init, op);
      assert ops == init + [op];
      var before, after := ApplyOps(table, k, init), ApplyOps(table, k, ops);
      assert after == ApplyOp(before, k, op);
      if op.operation == AllowedIPRemove {
        assert Owned(after, other) == Owned(before, other);
      } else {
        assert Owned(after, other) == Owned(before, other) - {Masked(op.net)};
      }
    }
  }

  lemma {:induction false} TakenSnoc(ops: seq<AllowedIPConfig>, op: AllowedIPConfig)
    ensures Taken(ops + [op]) == Taken(ops) + if op.operation == AllowedIPRemove then {} else {Masked(op.net)}
  {
    forall c | c in Taken(ops)
      ensures c in Taken(ops + [op])
    {
      var x :| x in ops && x.operation != AllowedIPRemove && c == Masked(x.net);
      assert x in ops + [op];
    }
    assert op in ops + [op];
  }

  lemma {:induction false} SameTables(a: map<Cidr, Key>, b: map<Cidr, Key>)
    requires forall k: Key :: Owned(a, k) == Owned(b, k)
    ensures a == b
  {
    forall c | c in a
      ensures c in b && b[c] == a[c]
    {
      assert c in Owned(b, a[c]);
    }
    forall c | c in b
      ensures c in a
    {
      assert c in Owned(a, b[c]);
    }
  }

  // ----- two runs of the same entries -----

  lemma {:induction false} PresenceStep(s: State, p: PeerConfig, k: Key)
    ensures k in ApplyPeer(s, p).peers <==>
            if p.publicKey != k then k in s.peers else !p.remove && (k in s.peers || !p.updateOnly)
  {
  }

  lemma {:induction false} PeersFrom(s: State, ps: seq<PeerConfig>)
    ensures ApplyPeers(s, ps).peers.Keys <= s.peers.Keys + KeySet(ps)
  {
    if ps == [] {
    } else {
      var init, p := ps[..|ps| - 1], ps[|ps| - 1];
      PeersFrom(s, init);
      KeySetSnoc(init, p);
      assert ps == init + [p];
    }
  }

  /** From any two devices, the entries of an anchored key leave it in both or in neither. */
  lemma {:induction false} PresenceAgrees(d: State, e: State, ps: seq<PeerConfig>, k: Key)
    requires Anchored(ps, k)
    ensures k in ApplyPeers(d, ps).peers <==> k in ApplyPeers(e, ps).peers
  {
    var init, p := ps[..|ps| - 1], ps[|ps| - 1];
    PresenceStep(ApplyPeers(d, init), p, k);
    PresenceStep(ApplyPeers(e, init), p, k);
    if p.publicKey != k || !(p.remove || !p.updateOnly) {
      assert ps == init + [p];
      PresenceAgrees(d, e, init, k);
    }
  }

  lemma {:induction false} OwnedStep(s: State, p: PeerConfig, k: Key)
    requires WellFormed(s)
    ensures Owned(ApplyPeer(s, p).table, k)
         == if p.remove then (if p.publicKey == k then {} else Owned(s.table, k))
            else if Skipped(s, p) then Owned(s.table, k)
            else if p.publicKey == k then OwnAfter(if p.replaceAllowedIPs then {} else Owned(s.table, k), Entries(p))
            else Owned(s.table, k) - Taken(Entries(p))
  {
    if !p.remove && !Skipped(s, p) {
      var kept := if p.replaceAllowedIPs then DropOwner(s.table, p.publicKey) else s.table;
      if p.publicKey == k {
        OwnOperations(kept, k, Entries(p));
        assert Owned(kept, k) == if p.replaceAllowedIPs then {} else Owned(s.table, k);
      } else {
        OtherOperations(kept, p.publicKey, Entries(p), k);
        assert Owned(kept, k) == Owned(s.table, k);
      }
    }
  }

  /** From any two devices, the entries of a settled key leave it the same networks. */
  lemma {:induction false} OwnedAgrees(d: State, e: State, ps: seq<PeerConfig>, k: Key)
    requires WellFormed(d) && WellFormed(e)
    requires NoUpdateOnly(ps) && OwnsSettled(ps, k)
    ensures Owned(ApplyPeers(d, ps).table, k) == Owned(ApplyPeers(e, ps).table, k)
  {
    var init, p := ps[..|ps| - 1], ps[|ps| - 1];
    ApplyPeersWellFormed(d, init);
    ApplyPeersWellFormed(e, init);
    OwnedStep(ApplyPeers(d, init), p, k);
    OwnedStep(ApplyPeers(e, init), p, k);
    if p.publicKey != k || !(p.remove || p.replaceAllowedIPs) {
      assert ps == init + [p];
      OwnedAgrees(d, e, init, k);
    }
  }

  lemma {:induction false} AnchoredAll(ps: seq<PeerConfig>, k: Key)
    requires NoUpdateOnly(ps) && k in KeySet(ps)
    ensures Anchored(ps, k)
  {
  }

  /** The settings of two peer states, as far as the entries settle them. */
  ghost predicate SameSettled(a: PeerState, b: PeerState, ps: seq<PeerConfig>, k: Key) {
    && (KeySettled(ps, k) ==> a.presharedKey == b.presharedKey)
    && (EndpointSettled(ps, k) ==> a.endpoint == b.endpoint)
    && (KeepaliveSettled(ps, k) ==> a.keepalive == b.keepalive)
  }

  lemma {:induction false} SettledSnoc(ps: seq<PeerConfig>, p: PeerConfig, k: Key)
    ensures KeySettled(ps + [p], k) <==> KeySettled(ps, k) || (p.publicKey == k && (p.remove || p.presharedKey.Some?))
    ensures EndpointSettled(ps + [p], k) <==>
              EndpointSettled(ps, k) || (p.publicKey == k && (p.remove || p.endpoint.Some?))
    ensures KeepaliveSettled(ps + [p], k) <==>
              KeepaliveSettled(ps, k) || (p.publicKey == k && (p.remove || p.keepalive.Some?))
  {
    assert forall q <- ps :: q in ps + [p];
    assert p in ps + [p];
  }

  lemma {:induction false} SettingsStep(s: State, p: PeerConfig, k: Key)
    requires k in ApplyPeer(s, p).peers
    ensures p.publicKey == k && p.remove ==> false
    ensures ApplyPeer(s, p).peers[k]
         == if p.publicKey == k && !Skipped(s, p) then Settings(Current(s, k), p) else Current(s, k)
  {
  }

  lemma {:induction false} SettledStep(d: PeerState, e: PeerState, ps: seq<PeerConfig>, p: PeerConfig, k: Key)
    requires p.publicKey == k && !p.remove
    requires d == e || SameSettled(d, e, ps, k)
    ensures SameSettled(Settings(d, p), Settings(e, p), ps + [p], k)
  {
    SettledSnoc(ps, p, k);
  }

  lemma {:induction false} SettingsAgree(d: State, e: State, ps: seq<PeerConfig>, k: Key)
    requires NoUpdateOnly(ps)
    requires k in ApplyPeers(d, ps).peers && k in ApplyPeers(e, ps).peers
    ensures SameSettled(ApplyPeers(d, ps).peers[k], ApplyPeers(e, ps).peers[k], ps, k)
  {
    hide ApplyPeer, Settings;
    if ps == [] {
    } else {
      var init, p := ps[..|ps| - 1], ps[|ps| - 1];
      assert ps == init + [p];
      var d', e' := ApplyPeers(d, init), ApplyPeers(e, init);
      SettingsStep(d', p, k);
      SettingsStep(e', p, k);
      SettledSnoc(init, p, k);
      if k in d'.peers && k in e'.peers {
        SettingsAgree(d, e, init, k);
      } else if k in KeySet(init) {
        AnchoredAll(init, k);
        PresenceAgrees(d, e, init, k);
      } else {
        assert !KeySettled(init, k) && !EndpointSettled(init, k) && !KeepaliveSettled(init, k);
      }
      if p.publicKey == k {
        SettledStep(Current(d', k), Current(e', k), init, p, k);
      }
    }
  }
}
