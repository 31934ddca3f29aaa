/**
 * What the messages of Batches carry, and what a device makes of them: the same as the
 * one configuration in which only the first entry of each public key keeps its settings.
 */
module BatchesMeaning {
  import opened WgTypes
  import opened DeviceModel
  import opened Seqs
  import opened Batches

  // ----- what the chunks of one peer carry -----

  function AllEntries(ps: seq<PeerConfig>): seq<AllowedIPConfig> {
    if ps == [] then [] else Entries(ps[0]) + AllEntries(ps[1..])
  }

  /** max(1, ceil(n / 256)) */
  function ChunkCount(n: nat): nat {
    if n == 0 then 1 else (n + 255) / 256
  }

  lemma {:induction false} AddAllSplit(nets: seq<Cidr>, a: nat)
    requires a <= |nets|
    ensures AddAll(nets) == AddAll(nets[..a]) + AddAll(nets[a..])
  {
  }

  lemma {:induction false} Interleave<T>(a: seq<T>, b: seq<T>, c: seq<T>, d: seq<T>)
    requires b == [] || c == []
    ensures (a + b) + (c + d) == (a + c) + (b + d)
  {
  }

  lemma {:induction false} EntriesSplit(p: PeerConfig, full: bool)
    ensures Entries(p) == Entries(Head(p, full)) + Entries(Tail(p))
    ensures EntryCount(p) > IP_BATCH_CHUNK ==> |Entries(Head(p, full))| == IP_BATCH_CHUNK
  {
    var a, o := Nets(p), Operations(p);
    AddAllSplit(p.allowedIPs, a);
    assert p.operations == p.operations[..o] + p.operations[o..];
    Interleave(AddAll(p.allowedIPs[..a]), AddAll(p.allowedIPs[a..]), p.operations[..o], p.operations[o..]);
  }

  lemma {:induction false} WholeHead(p: PeerConfig, full: bool)
    requires EntryCount(p) <= IP_BATCH_CHUNK
    ensures Head(p, full) == WithSettings(p, full)
  {
    Whole(p.allowedIPs);
    Whole(p.operations);
  }

  /**
   * A peer with n networks and operations is sent in max(1, ceil(n / 256)) chunks, all full
   * but the last, which carry exactly its networks and then its operations, in order.
   */
  lemma {:induction false} Chunking(p: PeerConfig, full: bool)
    ensures var cs := PeerChunks(p, full);
            && |cs| == ChunkCount(EntryCount(p))
            && (forall i :: 0 <= i < |cs| - 1 ==> |Entries(cs[i])| == IP_BATCH_CHUNK)
            && |Entries(cs[|cs| - 1])| <= IP_BATCH_CHUNK
            && AllEntries(cs) == Entries(p)
    decreases EntryCount(p)
  {
    hide Head, Tail, Entries;
    var h, cs := Head(p, full), PeerChunks(p, full);
    EntriesSplit(p, full);
    EntriesCount(p);
    if EntryCount(p) <= IP_BATCH_CHUNK {
      WholeEntries(p, full);
      assert cs == [h] && cs[1..] == [];
    } else {
      var rest := PeerChunks(Tail(p), false);
      TailCount(p);
      Chunking(Tail(p), false);
      assert cs == [h] + rest && cs[1..] == rest;
    }
  }

  lemma {:induction false} TailCount(p: PeerConfig)
    ensures EntryCount(p) > IP_BATCH_CHUNK ==> EntryCount(Tail(p)) == EntryCount(p) - IP_BATCH_CHUNK
  {
  }

  lemma {:induction false} WholeEntries(p: PeerConfig, full: bool)
    requires EntryCount(p) <= IP_BATCH_CHUNK
    ensures Entries(Head(p, full)) == Entries(p)
  {
    WholeHead(p, full);
  }

  // ----- the configuration the chunks amount to -----

  /** Only the first entry of each public key keeps its settings. */
  function FirstOccurrences(ps: seq<PeerConfig>): (r: seq<PeerConfig>)
    ensures |r| == |ps|
  {
    if ps == [] then []
    else
      var init, p := ps[..|ps| - 1], ps[|ps| - 1];
      FirstOccurrences(init) + [WithSettings(p, IsNew(p, KeySet(init)))]
  }

  function Merged(cfg: Config): Config {
    Config(cfg.privateKey, cfg.listenPort, cfg.firewallMark, cfg.replacePeers, FirstOccurrences(cfg.peers))
  }

  lemma {:induction false} TableOfParts(table: map<Cidr, Key>, p: PeerConfig, full: bool)
    ensures ApplyOps(ApplyOps(table, p.publicKey, Entries(Head(p, full))), p.publicKey, Entries(Tail(p)))
         == ApplyOps(table, p.publicKey, Entries(p))
  {
    EntriesSplit(p, full);
    ApplyOpsConcat(table, p.publicKey, Entries(Head(p, full)), Entries(Tail(p)));
  }

  /** Sending a peer in two parts is sending it whole. */
  lemma {:induction false} TwoParts(s: State, p: PeerConfig, full: bool)
    ensures ApplyPeer(ApplyPeer(s, Head(p, full)), WithSettings(Tail(p), false)) == ApplyPeer(s, WithSettings(p, full))
  {
    hide ApplyOps, DropOwner;
    var k, h, t, w := p.publicKey, Head(p, full), WithSettings(Tail(p), false), WithSettings(p, full);
    if Skipped(s, p) || p.remove {
    } else {
      var kept := if w.replaceAllowedIPs then DropOwner(s.table, k) else s.table;
      TableOfParts(kept, p, full);
      assert Entries(w) == Entries(p) && Entries(t) == Entries(Tail(p));
      var mid := ApplyPeer(s, h);
      assert mid.table == ApplyOps(kept, k, Entries(h));
      assert mid.peers == s.peers[k := Settings(Current(s, k), w)];
      var end := ApplyPeer(mid, t);
      assert end.peers == mid.peers[k := Settings(Settings(Current(s, k), w), t)];
      assert end.peers == s.peers[k := Settings(Current(s, k), w)];
    }
  }

  lemma {:induction false} PeerChunksMeaning(s: State, p: PeerConfig, full: bool)
    ensures ApplyPeers(s, PeerChunks(p, full)) == ApplyPeer(s, WithSettings(p, full))
    decreases EntryCount(p)
  {
    var h := Head(p, full);
    assert ApplyPeers(s, [h]) == ApplyPeer(s, h);
    if EntryCount(p) <= IP_BATCH_CHUNK {
      WholeHead(p, full);
      assert PeerChunks(p, full) == [h];
    } else {
      ApplyPeersConcat(s, [h], PeerChunks(Tail(p), false));
      PeerChunksMeaning(ApplyPeer(s, h), Tail(p), false);
      TwoParts(s, p, full);
    }
  }

  lemma {:induction false} AllChunksMeaning(s: State, ps: seq<PeerConfig>)
    ensures ApplyPeers(s, AllChunks(ps)) == ApplyPeers(s, FirstOccurrences(ps))
  {
    if ps == [] {
    } else {
      var init, p := ps[..|ps| - 1], ps[|ps| - 1];
      var full := IsNew(p, KeySet(init));
      AllChunksMeaning(s, init);
      ApplyPeersConcat(s, AllChunks(init), PeerChunks(p, full));
      PeerChunksMeaning(ApplyPeers(s, AllChunks(init)), p, full);
      assert FirstOccurrences(ps)[..|ps| - 1] == FirstOccurrences(init);
    }
  }

  // ----- the messages -----

  lemma {:induction false} WrapMeaning(s: State, cfg: Config, chunks: seq<PeerConfig>)
    requires chunks != []
    ensures ApplyAll(s, ReplaceOnce(Wrap(cfg, chunks))) == ApplyPeers(ApplyHeader(s, cfg), chunks)
  {
    var init, c := chunks[..|chunks| - 1], chunks[|chunks| - 1];
    var sent, all := ReplaceOnce(Wrap(cfg, init)), ReplaceOnce(Wrap(cfg, chunks));
    var last := Config(cfg.privateKey, cfg.listenPort, cfg.firewallMark, cfg.replacePeers && init == [], [c]);
    assert all == sent + [last];
    assert all[..|all| - 1] == sent;
    if init == [] {
      assert last == Wrap(cfg, chunks)[0];
      assert ApplyAll(s, sent) == s;
      assert chunks == [c];
    } else {
      WrapMeaning(s, cfg, init);
      var t := ApplyPeers(ApplyHeader(s, cfg), init);
      ApplyPeersKeepsHeader(ApplyHeader(s, cfg), init);
      assert ApplyHeader(t, last) == t;
      assert ApplyPeers(t, [c]) == ApplyPeer(t, c);
    }
  }

  /**
   * The messages, applied in order, are the one configuration in which only the first entry
   * of each public key keeps its preshared key, endpoint, keepalive and replace flag.
   */
  lemma {:induction false} BatchesRefine(s: State, cfg: Config)
    ensures ApplyAll(s, BatchesOf(cfg)) == ApplyConfig(s, if NeedsBatches(cfg) then Merged(cfg) else cfg)
  {
    if NeedsBatches(cfg) {
      NonEmpty(cfg);
      WrapMeaning(s, cfg, AllChunks(cfg.peers));
      AllChunksMeaning(ApplyHeader(s, cfg), cfg.peers);
    } else {
      assert BatchesOf(cfg)[..0] == [];
    }
  }
}
