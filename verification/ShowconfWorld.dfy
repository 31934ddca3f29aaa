/**
 * Names through a shown configuration: AttachNames puts the stored names into the dump,
 * the file carries them, and Apply stores them again. internal/wgconf/conf.go.
 */
module ShowconfWorld {
  import opened Wrappers
  import opened WgTypes
  import opened DeviceModel
  import opened Seqs
  import opened Batches
  import opened BatchesExact
  import opened Addresses
  import opened Endpoints
  import opened ConfigMeaning
  import opened ConfigText
  import opened ConfigSpells
  import opened Showconf
  import opened ShowconfMeans
  import opened ShowconfRestores
  import opened Conf
  import NamesRuns
  import opened Reassembly
  import opened ReassemblyInverts

  // ----- attaching names -----

  function WithStoredName(p: Peer, names: map<Key, string>): Peer {
    if p.publicKey in names && names[p.publicKey] != "" then p.(name := Some(names[p.publicKey])) else p
  }

  function Attached(ps: seq<Peer>, names: map<Key, string>): (r: seq<Peer>)
    ensures |r| == |ps|
  {
    if ps == [] then []
    else Attached(ps[..|ps| - 1], names) + [WithStoredName(ps[|ps| - 1], names)]
  }

  function WithPeerNames(d: Device, names: map<Key, string>): Device {
    d.(peers := Attached(d.peers, names))
  }

  method AttachNames(d: Device, names: map<Key, string>) returns (named: Device)
    ensures named == WithPeerNames(d, names)
  {
    var peers := d.peers;
    for i := 0 to |peers|
      invariant |peers| == |d.peers|
      invariant peers[..i] == Attached(d.peers[..i], names)
      invariant peers[i..] == d.peers[i..]
    {
      Snoc(d.peers, i);
      var name := if peers[i].publicKey in names then names[peers[i].publicKey] else "";
      if name != "" {
        peers := peers[i := peers[i].(name := Some(name))];
      }
      Snoc(peers, i);
    }
    Whole(d.peers);
    Whole(peers);
    named := d.(peers := peers);
  }

  lemma {:induction false} AttachedAt(ps: seq<Peer>, names: map<Key, string>, i: nat)
    requires i < |ps|
    ensures Attached(ps, names)[i] == WithStoredName(ps[i], names)
  {
    if i == |ps| - 1 {
    } else {
      AttachedAt(ps[..|ps| - 1], names, i);
    }
  }

  /** Names change nothing that a dump reports about the device. */
  lemma {:induction false} AttachedReports(d: Device, names: map<Key, string>, s: State)
    requires Reports(d, s) && Writable(d)
    ensures Reports(WithPeerNames(d, names), s) && Writable(WithPeerNames(d, names))
  {
    hide IsMasked, Held, PeerWritable;
    var e := WithPeerNames(d, names);
    forall i | 0 <= i < |d.peers|
      ensures e.peers[i].publicKey == d.peers[i].publicKey && e.peers[i].allowedIPs == d.peers[i].allowedIPs
      ensures Held(e.peers[i]) == Held(d.peers[i]) && PeerWritable(e.peers[i])
    {
      AttachedAt(d.peers, names, i);
      NamedPeer(d.peers[i], names);
    }
    SamePeers(d, e, s);
  }

  lemma {:induction false} NamedPeer(p: Peer, names: map<Key, string>)
    ensures var q := WithStoredName(p, names);
            q.publicKey == p.publicKey && q.allowedIPs == p.allowedIPs && Held(q) == Held(p)
              && (PeerWritable(q) <==> PeerWritable(p))
  {
  }

  /** Another peer list that tells the same of each peer. */
  ghost predicate Alike(d: Device, e: Device) {
    && |e.peers| == |d.peers|
    && e.privateKey == d.privateKey && e.hasPrivateKey == d.hasPrivateKey
    && e.listenPort == d.listenPort && e.firewallMark == d.firewallMark
    && forall i :: 0 <= i < |d.peers| ==>
         && e.peers[i].publicKey == d.peers[i].publicKey && e.peers[i].allowedIPs == d.peers[i].allowedIPs
         && Held(e.peers[i]) == Held(d.peers[i])
  }

  lemma {:induction false} AlikeTable(d: Device, e: Device, s: State, c: Cidr)
    requires Reports(d, s) && Alike(d, e) && c in s.table
    ensures IsMasked(c) && exists p <- e.peers :: p.publicKey == s.table[c] && c in p.allowedIPs
  {
    hide IsMasked, Held, Reports;
    var p := ReportedBy(d, s, c);
    var i :| 0 <= i < |d.peers| && d.peers[i] == p;
    assert e.peers[i] in e.peers;
  }

  lemma {:induction false} AlikePeer(d: Device, e: Device, s: State, i: nat)
    requires Reports(d, s) && Alike(d, e) && i < |d.peers|
    ensures var p := e.peers[i];
            && p.publicKey in s.peers && s.peers[p.publicKey] == Held(p)
            && forall c <- p.allowedIPs :: c in s.table && s.table[c] == p.publicKey
  {
    hide IsMasked, Held;
    assert d.peers[i] in d.peers;
  }

  lemma {:induction false} AlikeKeys(d: Device, e: Device)
    requires Alike(d, e)
    ensures PeerKeys(e.peers) == PeerKeys(d.peers) && (DistinctPeers(d.peers) ==> DistinctPeers(e.peers))
  {
    forall i | 0 <= i < |d.peers|
      ensures d.peers[i].publicKey in PeerKeys(e.peers) && e.peers[i].publicKey in PeerKeys(d.peers)
    {
      assert d.peers[i] in d.peers && e.peers[i] in e.peers;
    }
  }

  lemma {:induction false} SamePeers(d: Device, e: Device, s: State)
    requires Reports(d, s) && Alike(d, e)
    ensures Reports(e, s)
  {
    hide IsMasked, Held, Reports, Alike, DistinctPeers;
    AlikeKeys(d, e);
    ReportedKeys(d, s);
    AlikeHeader(d, e, s);
    forall p | p in e.peers
      ensures p.publicKey in s.peers && s.peers[p.publicKey] == Held(p)
      ensures forall c <- p.allowedIPs :: c in s.table && s.table[c] == p.publicKey
    {
      var i :| 0 <= i < |e.peers| && e.peers[i] == p;
      AlikePeer(d, e, s, i);
    }
    forall c | c in s.table
      ensures IsMasked(c) && exists p <- e.peers :: p.publicKey == s.table[c] && c in p.allowedIPs
    {
      AlikeTable(d, e, s, c);
    }
    IsReport(e, s);
  }

  lemma {:induction false} AlikeHeader(d: Device, e: Device, s: State)
    requires Reports(d, s) && Alike(d, e)
    ensures |e.peers| == |d.peers|
    ensures s.privateKey == (if e.hasPrivateKey then e.privateKey else ZeroKey())
    ensures s.listenPort == e.listenPort && s.firewallMark == e.firewallMark
  {
  }

  lemma {:induction false} IsReport(d: Device, s: State)
    requires s.privateKey == (if d.hasPrivateKey then d.privateKey else ZeroKey())
    requires s.listenPort == d.listenPort && s.firewallMark == d.firewallMark
    requires DistinctPeers(d.peers) && PeerKeys(d.peers) == s.peers.Keys
    requires forall p <- d.peers :: p.publicKey in s.peers && s.peers[p.publicKey] == Held(p)
    requires forall p <- d.peers, c <- p.allowedIPs :: c in s.table && s.table[c] == p.publicKey
    requires forall c <- s.table :: IsMasked(c) && exists p <- d.peers :: p.publicKey == s.table[c] && c in p.allowedIPs
    ensures Reports(d, s)
  {
    hide IsMasked, Held, DistinctPeers;
  }

  // ----- names -----

  function Known(names: map<Key, string>, keys: set<Key>): map<Key, string> {
    map k | k in names && k in keys && names[k] != "" :: names[k]
  }

  lemma {:induction false} KnownStep(names: map<Key, string>, keys: set<Key>, e: PeerConfig, all: set<Key>)
    requires !e.remove && e.publicKey in all && e.publicKey !in keys
    requires e.name == if e.publicKey in names && names[e.publicKey] != "" then Some(names[e.publicKey]) else None
    ensures NameStep(Known(names, keys), e, all) == Known(names, keys + {e.publicKey})
  {
  }

  /** The names that the entries of a shown device store. */
  lemma {:induction false} NamesStored(ps: seq<Peer>, names: map<Key, string>, all: set<Key>)
    requires forall p <- ps :: p.name.None?
    requires DistinctPeers(ps) && PeerKeys(ps) <= all
    ensures NameSteps(map[], RestoringAll(Attached(ps, names)), all) == Known(names, PeerKeys(ps))
  {
    hide Restoring, WithStoredName, DistinctPeers, NameStep;
    if ps == [] {
    } else {
      var init, p := ps[..|ps| - 1], ps[|ps| - 1];
      assert ps == init + [p];
      NewKey(init, p);
      PeerKeysSnoc(init, p);
      NamesStored(init, names, all);
      NameStored(p, names);
      KnownStep(names, PeerKeys(init), Restoring(WithStoredName(p, names)), all);
      RestoringSnoc(init, p, names);
    }
  }

  lemma {:induction false} RestoringSnoc(ps: seq<Peer>, p: Peer, names: map<Key, string>)
    ensures var all := RestoringAll(Attached(ps + [p], names));
            all == RestoringAll(Attached(ps, names)) + [Restoring(WithStoredName(p, names))]
            && all[..|all| - 1] == RestoringAll(Attached(ps, names))
  {
    hide Restoring, WithStoredName;
    assert (ps + [p])[..|ps|] == ps;
    assert Attached(ps + [p], names)[..|ps|] == Attached(ps, names);
  }

  lemma {:induction false} NewKey(init: seq<Peer>, p: Peer)
    requires DistinctPeers(init + [p])
    ensures DistinctPeers(init) && p.publicKey !in PeerKeys(init)
  {
    var ps := init + [p];
    assert ps[|init|] == p;
    assert forall i :: 0 <= i < |init| ==> ps[i] == init[i];
  }

  lemma {:induction false} NameStored(p: Peer, names: map<Key, string>)
    requires p.name.None?
    ensures var e := Restoring(WithStoredName(p, names));
            && e.publicKey == p.publicKey && !e.remove
            && e.name == if p.publicKey in names && names[p.publicKey] != "" then Some(names[p.publicKey]) else None
  {
    hide Sets, SpokenEndpointOf;
  }

  // ----- the native configuration -----

  lemma {:induction false} NativePeer(s: State, p: PeerConfig)
    ensures ApplyPeer(s, p.(name := None)) == ApplyPeer(s, p)
  {
    assert Entries(p.(name := None)) == Entries(p);
  }

  lemma {:induction false} NativePeers(s: State, ps: seq<PeerConfig>)
    ensures ApplyPeers(s, StripNames(ps)) == ApplyPeers(s, ps)
  {
    hide ApplyPeer;
    if ps == [] {
    } else {
      var init, p := ps[..|ps| - 1], ps[|ps| - 1];
      NativePeers(s, init);
      NativePeer(ApplyPeers(s, init), p);
      assert StripNames(ps)[..|ps| - 1] == StripNames(init);
    }
  }

  lemma {:induction false} NativeKeys(ps: seq<PeerConfig>)
    ensures KeysOf(StripNames(ps)) == KeysOf(ps)
  {
    forall i | 0 <= i < |ps|
      ensures StripNames(ps)[i].publicKey == ps[i].publicKey
    {
      NamesRuns.StripNamesAt(ps, i);
    }
  }

  lemma {:induction false} RestoringKeys(ps: seq<Peer>)
    requires DistinctPeers(ps)
    ensures Distinct(KeysOf(RestoringAll(ps)))
  {
    forall i | 0 <= i < |ps|
      ensures RestoringAll(ps)[i].publicKey == ps[i].publicKey
    {
      RestoringAt(ps, i);
    }
  }

  lemma {:induction false} RestoringAt(ps: seq<Peer>, i: nat)
    requires i < |ps|
    ensures RestoringAll(ps)[i] == Restoring(ps[i])
  {
    hide Restoring;
    if i == |ps| - 1 {
    } else {
      RestoringAt(ps[..|ps| - 1], i);
    }
  }

  /** At once or in messages, a configuration with distinct keys does the same. */
  lemma {:induction false} ConfiguredAsOne(s: State, cfg: Config, batched: bool)
    requires Distinct(KeysOf(cfg.peers))
    ensures Configured(s, Native(cfg), batched) == ApplyConfig(s, cfg)
  {
    hide Distinct, NoLateSettings, BatchesOf, ApplyAll;
    var start := ApplyHeader(s, cfg);
    NativePeers(start, cfg.peers);
    NativeKeys(cfg.peers);
    assert ApplyHeader(s, Native(cfg)) == start;
    if batched {
      DistinctNoLate(Native(cfg).peers);
      BatchesFaithful(s, Native(cfg));
    }
  }

  /**
   * The whole world, from any other: a device shown with its names and set again is the
   * device it was, with the names it had, however the configuration is sent.
   */
  lemma {:induction false} WorldRestored(w: World, w0: World, d: Device, batched: bool)
    requires Reports(d, w.device) && Writable(d) && Speakable(w.device)
    requires forall p <- d.peers :: p.name.None?
    requires w.names.Keys <= w.device.peers.Keys && forall k <- w.names :: w.names[k] != ""
    ensures ApplyWorld(w0, RestoringDevice(WithPeerNames(d, w.names)), batched, NoFault) == w
  {
    hide Reports, Writable, Speakable, Configured, Native, ApplyConfig, RestoringAll, WithPeerNames, NameSteps, Known;
    var e := WithPeerNames(d, w.names);
    var cfg := RestoringDevice(e);
    AttachedReports(d, w.names, w.device);
    RestoresExactly(e, w.device, w0.device);
    ReportedKeys(e, w.device);
    ReportedKeys(d, w.device);
    RestoringKeys(e.peers);
    ConfiguredAsOne(w0.device, cfg, batched);
    assert ApplyConfig(w0.device, cfg) == w.device;
    AttachedPeers(d, w.names);
    NamesStored(d.peers, w.names, w.device.peers.Keys);
    AllKnown(w.names, w.device.peers.Keys);
  }

  lemma {:induction false} AllKnown(names: map<Key, string>, keys: set<Key>)
    requires names.Keys <= keys && forall k <- names :: names[k] != ""
    ensures Known(names, keys) == names
  {
  }

  /** From kernel messages: however the dump of the device was cut, what they rebuild restores it. */
  lemma {:induction false} FragmentsRestored(w: World, w0: World, msgs: seq<Device>, d: Device, batched: bool)
    requires Fragments(msgs, d) && DistinctPeers(msgs[0].peers)
    requires Reports(d, w.device) && Writable(d) && Speakable(w.device)
    requires forall p <- d.peers :: p.name.None?
    requires w.names.Keys <= w.device.peers.Keys && forall k <- w.names :: w.names[k] != ""
    ensures ApplyWorld(w0, RestoringDevice(WithPeerNames(Reassembled(msgs), w.names)), batched, NoFault) == w
  {
    hide Reports, Writable, Speakable, Fragments, DistinctPeers, Reassembled, ApplyWorld, RestoringDevice,
      WithPeerNames;
    ParseDeviceInverts(msgs, d);
    WorldRestored(w, w0, d, batched);
  }

  lemma {:induction false} ReportedKeys(d: Device, s: State)
    requires Reports(d, s)
    ensures DistinctPeers(d.peers) && PeerKeys(d.peers) == s.peers.Keys
  {
  }

  lemma {:induction false} AttachedPeers(d: Device, names: map<Key, string>)
    ensures WithPeerNames(d, names).peers == Attached(d.peers, names)
  {
  }

  /** The names can be written and every line of the file fits the scanner. */
  predicate Storable(o: Outside, d: Device) {
    FirstBadName(d.peers).None? && Scanned(DeviceLines(o, d)) == |DeviceLines(o, d)|
  }

  /**
   * `showconf` of a device with its names, then `setconf` of the file on a host in any
   * state: the host ends as the one that was shown, exactly when the file can be written and read.
   */
  method ShowThenSet(o: Outside, d: Device, names: map<Key, string>, host: Host, ghost shown: World) returns (ok: bool)
    requires Lawful(o) && Retries(o).Some? && Reports(d, shown.device) && Writable(d) && Speakable(shown.device)
    requires forall p <- d.peers :: p.name.None?
    requires names == shown.names && names.Keys <= shown.device.peers.Keys && forall k <- names :: names[k] != ""
    modifies host
    ensures ok == Storable(o, WithPeerNames(d, names))
    ensures host.Value() == if ok then shown else old(host.Value())
  {
    hide Lawful, Writable, Reports, Speakable, Retries, DeviceLines, RestoringDevice, ApplyWorld, WithPeerNames;
    AttachedReports(d, names, shown.device);
    WorldRestored(shown, host.Value(), d, host.batched);
    var named := AttachNames(d, names);
    var parsed := ShowThenParse(o, named);
    if parsed.None? || parsed.value.Err? {
      return false;
    }
    ok := host.Apply(parsed.value.value, NoFault);
  }
}
