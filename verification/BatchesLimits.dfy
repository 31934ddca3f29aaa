/** No message is larger than the kernel takes, and only configurations that are too large are split. */
module BatchesLimits {
  import opened WgTypes
  import opened DeviceModel
  import opened Seqs
  import opened Batches
  import opened BatchesMeaning

  /** At most 32 peers, and at most 256 networks and operations in all. */
  predicate Small(cfg: Config) {
    |cfg.peers| <= 32 && |AllEntries(cfg.peers)| <= 256
  }

  lemma {:induction false} AllEntriesSnoc(ps: seq<PeerConfig>, p: PeerConfig)
    ensures AllEntries(ps + [p]) == AllEntries(ps) + Entries(p)
    decreases |ps|
  {
    hide Entries;
    if ps == [] {
      assert [p][1..] == [];
      Assoc(Entries(p), [], []);
    } else {
      assert (ps + [p])[1..] == ps[1..] + [p];
      AllEntriesSnoc(ps[1..], p);
      Assoc(Entries(ps[0]), AllEntries(ps[1..]), Entries(p));
    }
  }

  /** The count of the source is the number of networks and operations. */
  lemma {:induction false} TotalIsCount(ps: seq<PeerConfig>)
    ensures TotalEntries(ps) == |AllEntries(ps)|
  {
    hide Entries, EntryCount;
    if ps == [] {
    } else {
      var init, p := ps[..|ps| - 1], ps[|ps| - 1];
      TotalIsCount(init);
      AllEntriesSnoc(init, p);
      EntriesCount(p);
      assert ps == init + [p];
    }
  }

  lemma {:induction false} ChunksSmall(p: PeerConfig, full: bool)
    ensures forall i :: 0 <= i < |PeerChunks(p, full)| ==> |Entries(PeerChunks(p, full)[i])| <= 256
  {
    hide Entries;
    Chunking(p, full);
  }

  lemma {:induction false} AllChunksSmall(ps: seq<PeerConfig>)
    ensures forall i :: 0 <= i < |AllChunks(ps)| ==> |Entries(AllChunks(ps)[i])| <= 256
  {
    hide Entries, PeerChunks;
    if ps == [] {
    } else {
      var init, p := ps[..|ps| - 1], ps[|ps| - 1];
      AllChunksSmall(init);
      ChunksSmall(p, IsNew(p, KeySet(init)));
    }
  }

  lemma {:induction false} WrapAt(base: Config, chunks: seq<PeerConfig>, i: nat)
    requires i < |chunks|
    ensures Wrap(base, chunks)[i] == Config(base.privateKey, base.listenPort, base.firewallMark, base.replacePeers,
                                       [chunks[i]])
  {
    if i == |chunks| - 1 {
    } else {
      WrapAt(base, chunks[..|chunks| - 1], i);
    }
  }

  lemma {:induction false} OnePeerSmall(p: PeerConfig)
    requires |Entries(p)| <= 256
    ensures |[p]| <= 32 && |AllEntries([p])| <= 256
  {
    hide Entries;
    assert [p][1..] == [];
  }

  /** Every message is within both limits, whatever the configuration. */
  lemma {:induction false} MessagesSmall(cfg: Config)
    ensures forall i :: 0 <= i < |BatchesOf(cfg)| ==> Small(BatchesOf(cfg)[i])
  {
    hide Entries, AllEntries, Wrap, AllChunks;
    TotalIsCount(cfg.peers);
    AllChunksSmall(cfg.peers);
    forall i | 0 <= i < |BatchesOf(cfg)|
      ensures Small(BatchesOf(cfg)[i])
    {
      if NeedsBatches(cfg) {
        var chunks := AllChunks(cfg.peers);
        WrapAt(cfg, chunks, i);
        OnePeerSmall(chunks[i]);
      }
    }
  }

  /** A configuration is sent as it is exactly when it is within both limits itself. */
  lemma {:induction false} SentWholeExactly(cfg: Config)
    ensures BatchesOf(cfg) == [cfg] <==> Small(cfg)
  {
    hide AllEntries, Wrap, AllChunks;
    TotalIsCount(cfg.peers);
    MessagesSmall(cfg);
    if BatchesOf(cfg) == [cfg] {
      assert Small(BatchesOf(cfg)[0]);
    }
  }

  /** Every message of a split configuration has its device fields and one peer; only the first replaces peers. */
  lemma {:induction false} MessagesCarry(cfg: Config, i: nat)
    requires !Small(cfg) && i < |BatchesOf(cfg)|
    ensures var m := BatchesOf(cfg)[i];
            && m.privateKey == cfg.privateKey && m.listenPort == cfg.listenPort && m.firewallMark == cfg.firewallMark
            && (m.replacePeers <==> cfg.replacePeers && i == 0)
            && |m.peers| == 1 && exists p <- cfg.peers :: p.publicKey == m.peers[0].publicKey
  {
    hide AllEntries, Wrap, AllChunks;
    TotalIsCount(cfg.peers);
    WrapAt(cfg, AllChunks(cfg.peers), i);
    ChunkOfPeer(cfg.peers, i);
  }

  lemma {:induction false} ChunkKey(p: PeerConfig, full: bool, i: nat)
    requires i < |PeerChunks(p, full)|
    ensures PeerChunks(p, full)[i].publicKey == p.publicKey
    decreases EntryCount(p)
  {
    hide Head, Tail;
    SameKey(p, full);
    var rest := if EntryCount(p) <= IP_BATCH_CHUNK then [] else PeerChunks(Tail(p), false);
    assert PeerChunks(p, full) == [Head(p, full)] + rest;
    if i > 0 {
      assert PeerChunks(p, full)[i] == rest[i - 1];
      ChunkKey(Tail(p), false, i - 1);
    }
  }

  lemma {:induction false} SameKey(p: PeerConfig, full: bool)
    ensures Head(p, full).publicKey == p.publicKey && Tail(p).publicKey == p.publicKey
    ensures EntryCount(p) > IP_BATCH_CHUNK ==> EntryCount(Tail(p)) < EntryCount(p)
  {
  }

  lemma {:induction false} ChunkOfPeer(ps: seq<PeerConfig>, i: nat)
    requires i < |AllChunks(ps)|
    ensures exists p <- ps :: p.publicKey == AllChunks(ps)[i].publicKey
  {
    hide PeerChunks;
    var init, p := ps[..|ps| - 1], ps[|ps| - 1];
    if i < |AllChunks(init)| {
      ChunkOfPeer(init, i);
      var q :| q in init && q.publicKey == AllChunks(init)[i].publicKey;
      assert q in ps;
    } else {
      ChunkKey(p, IsNew(p, KeySet(init)), i - |AllChunks(init)|);
      assert p in ps;
    }
  }
}
