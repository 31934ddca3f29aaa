/**
 * `wg syncconf` with the file that `wg showconf` wrote changes nothing: every entry finds
 * its peer as it is, no peer is removed, and the names are stored as they were.
 */
module ShowconfSync {
  import opened Wrappers
  import opened WgTypes
  import opened DeviceModel
  import opened Seqs
  import opened Batches
  import opened Addresses
  import opened ConfigText
  import opened ConfigSpells
  import opened Showconf
  import opened ShowconfMeans
  import opened ShowconfRestores
  import opened ShowconfWorld
  import opened Conf
  import opened SyncConvergence

  // ----- one peer -----

  /** The networks of a reported peer are those its key owns. */
  lemma {:induction false} OwnNets(d: Device, s: State, p: Peer)
    requires Reports(d, s) && Speakable(s) && p in d.peers
    ensures HeardAll(p.allowedIPs) == Owned(s.table, p.publicKey)
  {
    hide Reports, IsMasked, Heard, Spoken, Unmap;
    forall c | c in p.allowedIPs
      ensures c in s.table && s.table[c] == p.publicKey && Heard(c) == c
    {
      var i :| 0 <= i < |d.peers| && d.peers[i] == p;
      var j :| 0 <= j < |p.allowedIPs| && p.allowedIPs[j] == c;
      ReportedNet(d, s, i, j);
      HeardIsSpoken(c);
    }
    forall c | c in Owned(s.table, p.publicKey)
      ensures c in HeardAll(p.allowedIPs)
    {
      var q := ReportedBy(d, s, c);
      SamePeer(d, s, p, q);
      assert c in p.allowedIPs;
    }
  }

  lemma {:induction false} SamePeer(d: Device, s: State, p: Peer, q: Peer)
    requires Reports(d, s) && p in d.peers && q in d.peers && p.publicKey == q.publicKey
    ensures p == q
  {
    hide Held, IsMasked;
    var i :| 0 <= i < |d.peers| && d.peers[i] == p;
    var j :| 0 <= j < |d.peers| && d.peers[j] == q;
  }

  /** Replacing the networks of a key by its own networks. */
  lemma {:induction false} TableKept(table: map<Cidr, Key>, k: Key, nets: seq<Cidr>)
    requires HeardAll(nets) == Owned(table, k)
    ensures ApplyOps(DropOwner(table, k), k, Sets(nets)) == table
  {
    hide HeardAll, Sets, ApplyOps;
    SetsTable(DropOwner(table, k), k, nets);
    var t := ApplyOps(DropOwner(table, k), k, Sets(nets));
    forall c
      ensures c in t <==> c in table
      ensures c in t ==> t[c] == table[c]
    {
      assert c in DropOwner(table, k) <==> c in table && table[c] != k;
      assert c in Owned(table, k) <==> c in table && table[c] == k;
    }
  }

  lemma {:induction false} SettingsKept(p: Peer, was: PeerState)
    requires was == Held(p) && PeerWritable(p)
    requires p.endpoint.Some? ==> Unmap(p.endpoint.value.ip) == p.endpoint.value.ip
    ensures Settings(was, Restoring(p)) == was
  {
    hide Sets, HasName, Unmap;
  }

  lemma {:induction false} ReportedPeer(d: Device, s: State, p: Peer)
    requires Reports(d, s) && Speakable(s) && p in d.peers
    ensures p.publicKey in s.peers && s.peers[p.publicKey] == Held(p)
    ensures p.endpoint.Some? ==> Unmap(p.endpoint.value.ip) == p.endpoint.value.ip
  {
    hide IsMasked, Unmap, Spoken;
  }

  /** Setting a peer to what it is. */
  lemma {:induction false} PeerKept(d: Device, s: State, p: Peer)
    requires Reports(d, s) && Speakable(s) && p in d.peers && PeerWritable(p)
    ensures ApplyPeer(s, Restoring(p)) == s
  {
    hide Reports, Speakable, Sets, HasName, Entries, Settings, Held, Unmap, DropOwner, HeardAll, SpokenEndpointOf,
      ApplyOps;
    var k := p.publicKey;
    ReportedPeer(d, s, p);
    OwnNets(d, s, p);
    RestoringEntries(p);
    SettingsKept(p, s.peers[k]);
    TableKept(s.table, k, p.allowedIPs);
    assert s.peers[k := s.peers[k]] == s.peers;
  }

  // ----- the whole device -----

  lemma {:induction false} PeersKept(d: Device, s: State, ps: seq<Peer>)
    requires Reports(d, s) && Speakable(s) && forall p <- ps :: p in d.peers && PeerWritable(p)
    ensures ApplyPeers(s, RestoringAll(ps)) == s
  {
    hide Reports, Speakable, ApplyPeer, Restoring, PeerWritable;
    if ps == [] {
    } else {
      PeersKept(d, s, ps[..|ps| - 1]);
      PeerKept(d, s, ps[|ps| - 1]);
    }
  }

  lemma {:induction false} HeaderKept(d: Device, s: State, cfg: Config)
    requires Reports(d, s) && Writable(d) && cfg == WithReplace(RestoringDevice(d), false)
    ensures ApplyHeader(s, cfg) == s
  {
    hide Held, IsMasked, PeerWritable, RestoringAll;
  }

  lemma {:induction false} WritablePeers(d: Device)
    requires Writable(d)
    ensures forall p <- d.peers :: PeerWritable(p)
  {
    hide PeerWritable;
  }

  lemma {:induction false} RestoringKeySet(ps: seq<Peer>)
    ensures KeySet(RestoringAll(ps)) == PeerKeys(ps)
  {
    hide Restoring;
    if ps == [] {
    } else {
      var init, p := ps[..|ps| - 1], ps[|ps| - 1];
      assert ps == init + [p];
      RestoringKeySet(init);
      PeerKeysSnoc(init, p);
      KeySetSnoc(RestoringAll(init), Restoring(p));
      RestoringPublicKey(p);
    }
  }

  lemma {:induction false} RestoringPublicKey(p: Peer)
    ensures Restoring(p).publicKey == p.publicKey
  {
  }

  lemma {:induction false} NothingToRemove(current: seq<Peer>, wanted: set<Key>)
    requires PeerKeys(current) <= wanted
    ensures Removals(current, wanted) == []
  {
    if current == [] {
    } else {
      var init, p := current[..|current| - 1], current[|current| - 1];
      assert current == init + [p];
      PeerKeysSnoc(init, p);
      NothingToRemove(init, wanted);
    }
  }

  /** The names that the file carries are the names there are. */
  lemma {:induction false} NamesKept(ps: seq<Peer>, names: map<Key, string>, all: set<Key>)
    requires forall p <- ps :: p.name.None?
    ensures NameSteps(names, RestoringAll(Attached(ps, names)), all) == names
  {
    hide Restoring, WithStoredName, NameStep;
    if ps == [] {
    } else {
      var init, p := ps[..|ps| - 1], ps[|ps| - 1];
      assert ps == init + [p];
      NamesKept(init, names, all);
      NameStored(p, names);
      NameKept(names, Restoring(WithStoredName(p, names)), all);
      RestoringSnoc(init, p, names);
    }
  }

  lemma {:induction false} NameKept(names: map<Key, string>, e: PeerConfig, all: set<Key>)
    requires !e.remove
    requires e.name == if e.publicKey in names && names[e.publicKey] != "" then Some(names[e.publicKey]) else None
    ensures NameStep(names, e, all) == names
  {
  }

  /**
   * Sync with the shown configuration, from the state it was shown in, is the identity on
   * the device and its names, at once or in messages.
   */
  lemma {:induction false} SyncOfShownIsIdentity(w: World, d: Device, current: seq<Peer>, batched: bool)
    requires Reports(d, w.device) && Writable(d) && Speakable(w.device) && Lists(current, w.device)
    requires forall p <- d.peers :: p.name.None?
    ensures var shown := WithReplace(RestoringDevice(WithPeerNames(d, w.names)), false);
            ApplyWorld(w, SyncConfig(current, shown), batched, NoFault) == w
  {
    hide Reports, Writable, Speakable, Configured, Native, RestoringAll, WithPeerNames, ApplyHeader, Removals,
      ApplyPeers, NameSteps;
    var e := WithPeerNames(d, w.names);
    var shown := WithReplace(RestoringDevice(e), false);
    AttachedReports(d, w.names, w.device);
    AttachedPeers(d, w.names);
    ReportedKeys(e, w.device);
    RestoringKeySet(e.peers);
    NothingToRemove(current, KeySet(shown.peers));
    Assoc(shown.peers, [], []);
    assert SyncConfig(current, shown) == shown;
    RestoringKeys(e.peers);
    ConfiguredAsOne(w.device, shown, batched);
    HeaderKept(e, w.device, shown);
    WritablePeers(e);
    PeersKept(e, w.device, e.peers);
    NamesKept(d.peers, w.names, w.device.peers.Keys);
  }
}
