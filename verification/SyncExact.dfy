/** When Sync and replacing all peers agree, for every device: exactly. */
module SyncExact {
  import opened Wrappers
  import opened WgTypes
  import opened DeviceModel
  import opened Batches
  import opened BatchesExact
  import opened Conf
  import opened Records
  import opened SpareNets
  import opened SyncConvergence
  import opened UpdateOnly

  ghost predicate PeersConverge(cfg: Config) {
    forall s: State :: WellFormed(s) ==> SyncResult(s, cfg).peers.Keys == ReplaceResult(s, cfg).peers.Keys
  }

  ghost predicate TableConverges(cfg: Config) {
    forall s: State :: WellFormed(s) ==> SyncResult(s, cfg).table == ReplaceResult(s, cfg).table
  }

  ghost predicate Converges(cfg: Config) {
    forall s: State :: WellFormed(s) ==> SyncResult(s, cfg) == ReplaceResult(s, cfg)
  }

  /** The device before the entries of the two strategies. */
  function Kept(s: State, cfg: Config): State { ApplyHeader(s, WithReplace(cfg, false)) }
  function Cleared(s: State, cfg: Config): State { ApplyHeader(s, WithReplace(cfg, true)) }

  // ----- the entries say enough -----

  lemma {:induction false} PeersAgree(s: State, cfg: Config)
    requires forall k <- KeySet(cfg.peers) :: Anchored(cfg.peers, k)
    ensures SyncResult(s, cfg).peers.Keys == ReplaceResult(s, cfg).peers.Keys
  {
    var d, e := Kept(s, cfg), Cleared(s, cfg);
    PeersFrom(d, cfg.peers);
    PeersFrom(e, cfg.peers);
    forall k | k in KeySet(cfg.peers) {
      PresenceAgrees(d, e, cfg.peers, k);
    }
  }

  lemma {:induction false} OwnedBySync(s: State, cfg: Config, k: Key)
    ensures Owned(SyncResult(s, cfg).table, k)
         == if k in s.peers.Keys - KeySet(cfg.peers) then {} else Owned(ApplyPeers(Kept(s, cfg), cfg.peers).table, k)
  {
  }

  lemma {:induction false} OwnedByNoOne(s: State, k: Key)
    requires WellFormed(s) && k !in s.peers
    ensures Owned(s.table, k) == {}
  {
  }

  lemma {:induction false} TablesAgree(s: State, cfg: Config)
    requires WellFormed(s) && NoUpdateOnly(cfg.peers)
    requires forall k <- KeySet(cfg.peers) :: OwnsSettled(cfg.peers, k)
    ensures SyncResult(s, cfg).table == ReplaceResult(s, cfg).table
  {
    var d, e := Kept(s, cfg), Cleared(s, cfg);
    var d', e' := ApplyPeers(d, cfg.peers), ApplyPeers(e, cfg.peers);
    ApplyPeersWellFormed(d, cfg.peers);
    ApplyPeersWellFormed(e, cfg.peers);
    PeersFrom(d, cfg.peers);
    PeersFrom(e, cfg.peers);
    forall k: Key
      ensures Owned(SyncResult(s, cfg).table, k) == Owned(e'.table, k)
    {
      OwnedBySync(s, cfg, k);
      if k in KeySet(cfg.peers) {
        OwnedAgrees(d, e, cfg.peers, k);
      } else {
        OwnedByNoOne(e', k);
        if k !in s.peers {
          OwnedByNoOne(d', k);
        }
      }
    }
    SameTables(SyncResult(s, cfg).table, e'.table);
  }

  ghost predicate FullySettled(ps: seq<PeerConfig>, k: Key) {
    OwnsSettled(ps, k) && KeySettled(ps, k) && EndpointSettled(ps, k) && KeepaliveSettled(ps, k)
  }

  lemma {:induction false} DevicesAgree(s: State, cfg: Config)
    requires WellFormed(s) && NoUpdateOnly(cfg.peers)
    requires forall k <- KeySet(cfg.peers) :: FullySettled(cfg.peers, k)
    ensures SyncResult(s, cfg) == ReplaceResult(s, cfg)
  {
    hide ApplyPeers, NoUpdateOnly, WellFormed, Anchored;
    TablesAgree(s, cfg);
    forall k | k in KeySet(cfg.peers) {
      AnchoredAll(cfg.peers, k);
    }
    PeersAgree(s, cfg);
    var d, e := Kept(s, cfg), Cleared(s, cfg);
    ApplyPeersKeepsHeader(d, cfg.peers);
    ApplyPeersKeepsHeader(e, cfg.peers);
    var a, b := SyncResult(s, cfg), ReplaceResult(s, cfg);
    PeersFrom(e, cfg.peers);
    forall k | k in b.peers
      ensures a.peers[k] == b.peers[k]
    {
      SettingsAgree(d, e, cfg.peers, k);
    }
    assert a.peers == b.peers;
  }

  // ----- the entries do not say enough -----

  /** The past of a peer: settings that no new peer has. */
  const PAST := PeerState(OneKey(), Some(UDPAddr(IP4([192, 0, 2, 1]), 51820, "")), 25)

  function OnePeer(k: Key, table: map<Cidr, Key>): State {
    State(ZeroKey(), 0, 0, map[k := PAST], table)
  }

  lemma {:induction false} UpdateOnlyStays(s: State, ps: seq<PeerConfig>, k: Key)
    requires !Anchored(ps, k)
    ensures k in ApplyPeers(s, ps).peers <==> k in s.peers
  {
    if ps == [] {
    } else {
      var init, p := ps[..|ps| - 1], ps[|ps| - 1];
      assert ps == init + [p];
      UpdateOnlyStays(s, init, k);
      PresenceStep(ApplyPeers(s, init), p, k);
    }
  }

  lemma {:induction false} PeersDiffer(cfg: Config, k: Key)
    requires k in KeySet(cfg.peers) && !Anchored(cfg.peers, k)
    ensures var s := OnePeer(k, map[]);
            WellFormed(s) && k in SyncResult(s, cfg).peers && k !in ReplaceResult(s, cfg).peers
  {
    var s := OnePeer(k, map[]);
    UpdateOnlyStays(Kept(s, cfg), cfg.peers, k);
    UpdateOnlyStays(Cleared(s, cfg), cfg.peers, k);
  }

  lemma {:induction false} UnnamedOperations(own: set<Cidr>, ops: seq<AllowedIPConfig>, c: Cidr)
    requires !Mentions(ops, c)
    ensures c in OwnAfter(own, ops) <==> c in own
    ensures c !in Taken(ops)
  {
    if ops == [] {
    } else {
      assert ops == ops[..|ops| - 1] + [ops[|ops| - 1]];
      MentionsSnoc(ops[..|ops| - 1], ops[|ops| - 1], c);
      UnnamedOperations(own, ops[..|ops| - 1], c);
    }
  }

  /** Its owner keeps it while no entry removes the owner or replaces its networks. */
  lemma {:induction false} UnnamedStays(s: State, ps: seq<PeerConfig>, k: Key, c: Cidr)
    requires WellFormed(s) && Unnamed(ps, c) && !OwnsSettled(ps, k)
    ensures c in Owned(ApplyPeers(s, ps).table, k) <==> c in Owned(s.table, k)
  {
    if ps == [] {
    } else {
      var init, p := ps[..|ps| - 1], ps[|ps| - 1];
      assert ps == init + [p];
      UnnamedSnoc(init, p, c);
      UnnamedStays(s, init, k, c);
      ApplyPeersWellFormed(s, init);
      OwnedStep(ApplyPeers(s, init), p, k);
      UnnamedOperations(Owned(ApplyPeers(s, init).table, k), Entries(p), c);
    }
  }

  lemma {:induction false} TablesDiffer(cfg: Config, k: Key, c: Cidr)
    requires k in KeySet(cfg.peers) && !OwnsSettled(cfg.peers, k) && Unnamed(cfg.peers, c)
    ensures var s := OnePeer(k, map[c := k]);
            WellFormed(s) && SyncResult(s, cfg).table != ReplaceResult(s, cfg).table
  {
    var s := OnePeer(k, map[c := k]);
    UnnamedStays(Kept(s, cfg), cfg.peers, k, c);
    UnnamedStays(Cleared(s, cfg), cfg.peers, k, c);
    OwnedBySync(s, cfg, k);
    assert c in Owned(SyncResult(s, cfg).table, k);
    assert c !in Owned(ReplaceResult(s, cfg).table, k);
  }

  /** What the entries leave open stays as it was; a new peer starts from nothing. */
  lemma {:induction false} OpenSettings(s: State, ps: seq<PeerConfig>, k: Key)
    requires forall p <- ps :: p.publicKey == k ==> !p.remove
    ensures !KeySettled(ps, k) ==> Current(ApplyPeers(s, ps), k).presharedKey == Current(s, k).presharedKey
    ensures !EndpointSettled(ps, k) ==> Current(ApplyPeers(s, ps), k).endpoint == Current(s, k).endpoint
    ensures !KeepaliveSettled(ps, k) ==> Current(ApplyPeers(s, ps), k).keepalive == Current(s, k).keepalive
  {
    if ps == [] {
    } else {
      var init, p := ps[..|ps| - 1], ps[|ps| - 1];
      assert ps == init + [p];
      assert forall q <- init :: q in ps;
      assert p in ps;
      OpenSettings(s, init, k);
      SettledSnoc(init, p, k);
      CurrentStep(ApplyPeers(s, init), p, k);
    }
  }

  lemma {:induction false} CurrentStep(s: State, p: PeerConfig, k: Key)
    requires p.publicKey == k ==> !p.remove
    ensures Current(ApplyPeer(s, p), k)
         == if p.publicKey == k && !Skipped(s, p) then Settings(Current(s, k), p) else Current(s, k)
  {
  }

  lemma {:induction false} PlainSettingsDiffer(cfg: Config, k: Key)
    requires NoUpdateOnly(cfg.peers) && k in KeySet(cfg.peers)
    requires !KeySettled(cfg.peers, k) || !EndpointSettled(cfg.peers, k) || !KeepaliveSettled(cfg.peers, k)
    ensures var s := OnePeer(k, map[]);
            WellFormed(s) && SyncResult(s, cfg) != ReplaceResult(s, cfg)
  {
    var s := OnePeer(k, map[]);
    var d, e := Kept(s, cfg), Cleared(s, cfg);
    OpenSettings(d, cfg.peers, k);
    OpenSettings(e, cfg.peers, k);
    assert OneKey()[0] != ZeroKey()[0];
    assert Current(ApplyPeers(d, cfg.peers), k) != Current(ApplyPeers(e, cfg.peers), k);
    assert Current(SyncResult(s, cfg), k) == Current(ApplyPeers(d, cfg.peers), k);
  }

  // ----- exactly -----

  /** The peers converge exactly when each desired key has an entry that is not update-only. */
  lemma {:induction false} PeersConvergeExactly(cfg: Config)
    ensures PeersConverge(cfg) <==> forall k <- KeySet(cfg.peers) :: Anchored(cfg.peers, k)
  {
    if forall k <- KeySet(cfg.peers) :: Anchored(cfg.peers, k) {
      forall s: State | WellFormed(s) {
        PeersAgree(s, cfg);
      }
    } else {
      var k :| k in KeySet(cfg.peers) && !Anchored(cfg.peers, k);
      PeersDiffer(cfg, k);
      assert WellFormed(OnePeer(k, map[]));
    }
  }

  /** The entries have fewer operations than there are IPv6 addresses, so they leave some network unnamed. */
  predicate Bounded(cfg: Config) {
    TotalEntries(cfg.peers) < Pow256(16)
  }

  lemma {:induction false} PlainTable(cfg: Config)
    requires NoUpdateOnly(cfg.peers) && Bounded(cfg)
    ensures TableConverges(cfg) <==> forall k <- KeySet(cfg.peers) :: OwnsSettled(cfg.peers, k)
  {
    hide Pow256, Unnamed;
    if forall k <- KeySet(cfg.peers) :: OwnsSettled(cfg.peers, k) {
      forall s: State | WellFormed(s) {
        TablesAgree(s, cfg);
      }
    } else {
      var k :| k in KeySet(cfg.peers) && !OwnsSettled(cfg.peers, k);
      var c := SpareNet(cfg.peers);
      TablesDiffer(cfg, k, c);
      assert WellFormed(OnePeer(k, map[c := k]));
    }
  }

  lemma {:induction false} PlainDevice(cfg: Config)
    requires NoUpdateOnly(cfg.peers) && Bounded(cfg)
    ensures Converges(cfg) <==> forall k <- KeySet(cfg.peers) :: FullySettled(cfg.peers, k)
  {
    hide Pow256, Unnamed;
    if forall k <- KeySet(cfg.peers) :: FullySettled(cfg.peers, k) {
      forall s: State | WellFormed(s) {
        DevicesAgree(s, cfg);
      }
    } else {
      var k :| k in KeySet(cfg.peers) && !FullySettled(cfg.peers, k);
      if OwnsSettled(cfg.peers, k) {
        PlainSettingsDiffer(cfg, k);
        assert WellFormed(OnePeer(k, map[]));
      } else {
        var c := SpareNet(cfg.peers);
        TablesDiffer(cfg, k, c);
        assert WellFormed(OnePeer(k, map[c := k]));
      }
    }
  }

  /** The configuration of the entries that take effect. */
  function EffectiveConfig(cfg: Config): Config {
    Config(cfg.privateKey, cfg.listenPort, cfg.firewallMark, cfg.replacePeers, Effective(cfg.peers))
  }

  lemma {:induction false} SameStrategies(s: State, cfg: Config)
    requires Determined(cfg.peers)
    ensures SyncResult(s, EffectiveConfig(cfg)) == SyncResult(s, cfg)
    ensures ReplaceResult(s, EffectiveConfig(cfg)) == ReplaceResult(s, cfg)
  {
    hide Determined, ApplyPeers, Effective;
    EffectiveKeys(cfg.peers);
    EffectiveSame(Kept(s, cfg), cfg.peers);
    EffectiveSame(Cleared(s, cfg), cfg.peers);
  }

  lemma {:induction false} EffectiveBounded(cfg: Config)
    requires Bounded(cfg)
    ensures NoUpdateOnly(EffectiveConfig(cfg).peers) && Bounded(EffectiveConfig(cfg))
  {
    hide NoUpdateOnly, Pow256, TotalEntries;
    EffectivePlain(cfg.peers);
  }

  /**
   * The allowed-IP table converges exactly when some entry of each desired key that takes
   * effect removes the peer or replaces its networks.
   */
  lemma {:induction false} TableConvergesExactly(cfg: Config)
    requires Determined(cfg.peers) && Bounded(cfg)
    ensures TableConverges(cfg) <==> forall k <- KeySet(cfg.peers) :: OwnsSettled(Effective(cfg.peers), k)
  {
    hide Determined, Bounded, OwnsSettled, SyncResult, ReplaceResult, Effective, NoUpdateOnly;
    EffectiveBounded(cfg);
    EffectiveKeys(cfg.peers);
    PlainTable(EffectiveConfig(cfg));
    forall s: State
      ensures SyncResult(s, EffectiveConfig(cfg)) == SyncResult(s, cfg)
      ensures ReplaceResult(s, EffectiveConfig(cfg)) == ReplaceResult(s, cfg)
    {
      SameStrategies(s, cfg);
    }
  }

  /**
   * The devices converge exactly when the entries of each desired key that take effect
   * settle everything about it.
   */
  lemma {:induction false} ConvergesExactly(cfg: Config)
    requires Determined(cfg.peers) && Bounded(cfg)
    ensures Converges(cfg) <==> forall k <- KeySet(cfg.peers) :: FullySettled(Effective(cfg.peers), k)
  {
    hide Determined, Bounded, FullySettled, SyncResult, ReplaceResult, Effective, NoUpdateOnly;
    EffectiveBounded(cfg);
    EffectiveKeys(cfg.peers);
    PlainDevice(EffectiveConfig(cfg));
    forall s: State
      ensures SyncResult(s, EffectiveConfig(cfg)) == SyncResult(s, cfg)
      ensures ReplaceResult(s, EffectiveConfig(cfg)) == ReplaceResult(s, cfg)
    {
      SameStrategies(s, cfg);
    }
  }

  /** Some setting of the key is left open by the entries that take effect. */
  ghost predicate LeavesOpen(ps: seq<PeerConfig>, k: Key) {
    !KeySettled(ps, k) || !EndpointSettled(ps, k) || !KeepaliveSettled(ps, k)
  }

  /** A setting that is left open survives on a peer that is kept: a device where the strategies differ. */
  lemma {:induction false} SettingsDiffer(cfg: Config, k: Key)
    requires Determined(cfg.peers) && k in KeySet(cfg.peers) && LeavesOpen(Effective(cfg.peers), k)
    ensures WellFormed(OnePeer(k, map[])) && SyncResult(OnePeer(k, map[]), cfg) != ReplaceResult(OnePeer(k, map[]), cfg)
  {
    hide Determined, SyncResult, ReplaceResult, Effective, NoUpdateOnly, TotalEntries;
    EffectivePlain(cfg.peers);
    EffectiveKeys(cfg.peers);
    SameStrategies(OnePeer(k, map[]), cfg);
    PlainSettingsDiffer(EffectiveConfig(cfg), k);
  }

  // ----- through the messages of BuildBatches -----

  lemma {:induction false} RemovalsRemove(current: seq<Peer>, wanted: set<Key>)
    ensures forall p <- Removals(current, wanted) :: p.remove
  {
    if current == [] {
    } else {
      RemovalsRemove(current[..|current| - 1], wanted);
    }
  }

  /**
   * Sync on a client that splits large configurations, from any device: with distinct
   * desired keys that all replace their networks, the same peers and the same table as
   * replacing every peer at once.
   */
  lemma {:induction false} BatchedSyncConverges(s: State, current: seq<Peer>, cfg: Config)
    requires WellFormed(s) && Lists(current, s)
    requires Distinct(KeysOf(cfg.peers)) && NoUpdateOnly(cfg.peers)
    requires forall k <- KeySet(cfg.peers) :: OwnsSettled(cfg.peers, k)
    ensures var t := ApplyAll(s, BatchesOf(SyncConfig(current, WithReplace(cfg, false))));
            && t.peers.Keys == ReplaceResult(s, cfg).peers.Keys
            && t.table == ReplaceResult(s, cfg).table
  {
    var kept := WithReplace(cfg, false);
    var sent := SyncConfig(current, kept);
    DistinctNoLate(cfg.peers);
    RemovalsRemove(current, KeySet(cfg.peers));
    forall i | 0 <= i < |sent.peers| && sent.peers[i].publicKey in KeySet(sent.peers[..i])
      ensures SetsNothing(sent.peers[i])
    {
      if i < |cfg.peers| {
        assert sent.peers[..i] == cfg.peers[..i];
      } else {
        assert sent.peers[i] in Removals(current, KeySet(cfg.peers));
      }
    }
    BatchesFaithful(s, sent);
    SyncMeaning(s, current, kept);
    forall k | k in KeySet(cfg.peers) {
      AnchoredAll(cfg.peers, k);
    }
    PeersAgree(s, cfg);
    TablesAgree(s, cfg);
  }
}
