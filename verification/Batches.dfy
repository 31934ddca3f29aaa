/**
 * Splitting one large configuration into messages: internal/wglinux/configure_linux.go.
 *
 * BuildBatches is the loop of the source, against BatchesOf. Module BatchesMeaning says what a
 * device makes of the messages and what each of them carries.
 */
module Batches {
  import opened Wrappers
  import opened WgTypes
  import opened DeviceModel
  import opened Seqs

  const IP_BATCH_CHUNK := 256
  const PEER_BATCH_CHUNK := 32

  function Min(a: nat, b: nat): nat {
    if a < b then a else b
  }

  function EntryCount(p: PeerConfig): nat {
    |p.allowedIPs| + |p.operations|
  }

  function TotalEntries(ps: seq<PeerConfig>): nat {
    if ps == [] then 0 else TotalEntries(ps[..|ps| - 1]) + EntryCount(ps[|ps| - 1])
  }

  predicate NeedsBatches(cfg: Config) {
    |cfg.peers| > PEER_BATCH_CHUNK || TotalEntries(cfg.peers) > IP_BATCH_CHUNK
  }

  /** Whether the key of `p` is sent for the first time. */
  predicate IsNew(p: PeerConfig, known: set<Key>) {
    p.publicKey !in known
  }

  // ----- one peer -----

  /** The settings a chunk carries: all of them the first time a public key is sent, then none. */
  function WithSettings(p: PeerConfig, full: bool): PeerConfig {
    if full then p.(name := None)
    else p.(name := None, presharedKey := None, endpoint := None, keepalive := None, replaceAllowedIPs := false)
  }

  /** How many networks and how many operations the next chunk of `p` takes. */
  function Nets(p: PeerConfig): (n: nat)
    ensures n <= |p.allowedIPs|
  {
    Min(IP_BATCH_CHUNK, |p.allowedIPs|)
  }

  function Operations(p: PeerConfig): (n: nat)
    ensures n <= |p.operations|
  {
    Min(IP_BATCH_CHUNK - Nets(p), |p.operations|)
  }

  function Head(p: PeerConfig, full: bool): PeerConfig {
    WithSettings(p.(allowedIPs := p.allowedIPs[..Nets(p)], operations := p.operations[..Operations(p)]), full)
  }

  function Tail(p: PeerConfig): PeerConfig {
    p.(allowedIPs := p.allowedIPs[Nets(p)..], operations := p.operations[Operations(p)..])
  }

  function PeerChunks(p: PeerConfig, full: bool): seq<PeerConfig>
    decreases EntryCount(p)
  {
    [Head(p, full)] + if EntryCount(p) <= IP_BATCH_CHUNK then [] else PeerChunks(Tail(p), false)
  }

  /** The chunks of `p` when the keys `known` have been sent. */
  function ChunksAfter(p: PeerConfig, known: set<Key>): seq<PeerConfig> {
    PeerChunks(p, IsNew(p, known))
  }

  function HeadAfter(p: PeerConfig, known: set<Key>): PeerConfig {
    Head(p, IsNew(p, known))
  }

  /** The fields that every message of a split configuration repeats. */
  function Base(cfg: Config): Config {
    cfg.(peers := [])
  }

  /** The message that carries one chunk. */
  function Message(base: Config, chunk: PeerConfig): Config {
    base.(peers := [chunk])
  }

  // ----- all peers -----

  function AllChunks(ps: seq<PeerConfig>): seq<PeerConfig>
  {
    if ps == [] then []
    else
      var init, p := ps[..|ps| - 1], ps[|ps| - 1];
      AllChunks(init) + ChunksAfter(p, KeySet(init))
  }

  /** One message for each chunk. */
  function Wrap(base: Config, chunks: seq<PeerConfig>): (r: seq<Config>)
    ensures |r| == |chunks|
  {
    if chunks == [] then []
    else Wrap(base, chunks[..|chunks| - 1]) + [Message(base, chunks[|chunks| - 1])]
  }

  /** Only the first message may replace the peers of the device. */
  function ReplaceOnce(batches: seq<Config>): (r: seq<Config>)
    ensures |r| == |batches|
  {
    seq(|batches|, i requires 0 <= i < |batches| =>
      batches[i].(replacePeers := batches[i].replacePeers && i == 0))
  }

  function BatchesOf(cfg: Config): seq<Config> {
    if NeedsBatches(cfg) then ReplaceOnce(Wrap(cfg, AllChunks(cfg.peers))) else [cfg]
  }

  // ----- the loops of the source -----

  method ShouldBatch(cfg: Config) returns (b: bool)
    ensures b == NeedsBatches(cfg)
  {
    if |cfg.peers| > PEER_BATCH_CHUNK {
      return true;
    }
    var ips := 0;
    for i := 0 to |cfg.peers|
      invariant ips == TotalEntries(cfg.peers[..i])
    {
      ips := ips + |cfg.peers[i].allowedIPs| + |cfg.peers[i].operations|;
      Snoc(cfg.peers, i);
    }
    Whole(cfg.peers);
    b := ips > IP_BATCH_CHUNK;
  }

  /** One turn of the inner loop: the networks and operations of one message, and what is left. */
  method TakeChunk(peer: PeerConfig)
    returns (tmp: seq<Cidr>, operations: seq<AllowedIPConfig>, p: PeerConfig, done: bool)
    ensures tmp == peer.allowedIPs[..Nets(peer)]
    ensures operations == peer.operations[..Operations(peer)]
    ensures p == Tail(peer)
    ensures done <==> EntryCount(peer) <= IP_BATCH_CHUNK
  {
    p := peer;
    if |p.allowedIPs| < IP_BATCH_CHUNK {
      tmp := p.allowedIPs;
      p := p.(allowedIPs := []);
    } else {
      tmp := p.allowedIPs[..IP_BATCH_CHUNK];
      p := p.(allowedIPs := p.allowedIPs[IP_BATCH_CHUNK..]);
    }
    operations := [];
    var remaining := IP_BATCH_CHUNK - |tmp|;
    if remaining > |p.operations| {
      remaining := |p.operations|;
    }
    if remaining > 0 {
      operations := operations + p.operations[..remaining];
      p := p.(operations := p.operations[remaining..]);
    }
    done := |p.allowedIPs| == 0 && |p.operations| == 0;
  }

  /** The rest of that turn: the peer entry of the message, with settings if the key is new. */
  method NextEntry(peer: PeerConfig, known: set<Key>)
    returns (pcfg: PeerConfig, p: PeerConfig, done: bool)
    ensures pcfg == HeadAfter(peer, known)
    ensures p == Tail(peer)
    ensures done <==> EntryCount(peer) <= IP_BATCH_CHUNK
  {
    var tmp, operations;
    tmp, operations, p, done := TakeChunk(peer);
    pcfg := PeerConfig(None, p.publicKey, p.remove, p.updateOnly, None, None, None, false, tmp, operations);
    if p.publicKey !in known {
      pcfg := pcfg.(
        presharedKey := p.presharedKey,
        endpoint := p.endpoint,
        keepalive := p.keepalive,
        replaceAllowedIPs := p.replaceAllowedIPs);
    }
  }

  /** The messages of one peer, appended to `sent`. */
  method AppendPeer(base: Config, peer: PeerConfig, known: set<Key>, sent: seq<Config>)
    returns (knownPeers: set<Key>, batches: seq<Config>)
    ensures knownPeers == known + {peer.publicKey}
    ensures batches == sent + Wrap(base, ChunksAfter(peer, known))
  {
    hide Wrap, ChunksAfter, Head, Tail, Message, EntryCount;
    knownPeers, batches := known, sent;
    ghost var all := sent + Wrap(base, ChunksAfter(peer, known));
    var p, done := peer, false;
    while !done
      invariant p.publicKey == peer.publicKey
      invariant knownPeers == known || knownPeers == known + {peer.publicKey}
      invariant done ==> knownPeers == known + {peer.publicKey}
      invariant all == batches + if done then [] else Wrap(base, ChunksAfter(p, knownPeers))
      decreases !done, EntryCount(p)
    {
      OneTurn(base, p, knownPeers);
      var pcfg, rest, last := NextEntry(p, knownPeers);
      knownPeers := knownPeers + {p.publicKey};
      Regroup(batches, Message(base, pcfg), if last then [] else Wrap(base, ChunksAfter(rest, knownPeers)));
      batches := batches + [Message(base, pcfg)];
      p, done := rest, last;
    }
    assert batches + [] == batches;
  }

  /** The outer loop: the messages of every peer, in order. */
  method AppendPeers(base: Config, peers: seq<PeerConfig>) returns (batches: seq<Config>)
    ensures batches == Wrap(base, AllChunks(peers))
  {
    var knownPeers: set<Key> := {};
    batches := [];
    for n := 0 to |peers|
      invariant knownPeers == KeySet(peers[..n])
      invariant batches == Wrap(base, AllChunks(peers[..n]))
    {
      WrapPeer(base, peers, n);
      knownPeers, batches := AppendPeer(base, peers[n], knownPeers, batches);
    }
    Whole(peers);
  }

  method BuildBatches(cfg: Config) returns (batches: seq<Config>)
    ensures batches == BatchesOf(cfg)
    ensures |batches| >= 1
  {
    NonEmpty(cfg);
    var split := ShouldBatch(cfg);
    if !split {
      return [cfg];
    }
    var base := Base(cfg);
    batches := AppendPeers(base, cfg.peers);
    WrapBase(cfg, AllChunks(cfg.peers));
    batches := ReplaceFirstOnly(batches);
  }

  /** The last loop: only the first message may replace the peers of the device. */
  method ReplaceFirstOnly(sent: seq<Config>) returns (batches: seq<Config>)
    ensures batches == ReplaceOnce(sent)
  {
    batches := sent;
    for i := 0 to |batches|
      invariant |batches| == |sent|
      invariant forall j :: 0 <= j < i ==> batches[j] == ReplaceOnce(sent)[j]
      invariant forall j :: i <= j < |batches| ==> batches[j] == sent[j]
    {
      if i > 0 {
        batches := batches[i := batches[i].(replacePeers := false)];
      }
    }
  }

  // ----- sequences -----

  lemma {:induction false} EntriesCount(p: PeerConfig)
    ensures |Entries(p)| == EntryCount(p)
  {
  }

  lemma {:induction false} KeySetSnoc(ps: seq<PeerConfig>, p: PeerConfig)
    ensures KeySet(ps + [p]) == KeySet(ps) + {p.publicKey}
  {
  }

  lemma {:induction false} AllChunksSnoc(ps: seq<PeerConfig>, n: nat)
    requires n < |ps|
    ensures AllChunks(ps[..n + 1]) == AllChunks(ps[..n]) + ChunksAfter(ps[n], KeySet(ps[..n]))
    ensures KeySet(ps[..n + 1]) == KeySet(ps[..n]) + {ps[n].publicKey}
  {
    Snoc(ps, n);
    KeySetSnoc(ps[..n], ps[n]);
  }

  /** What one turn of the outer loop adds. */
  lemma {:induction false} WrapPeer(base: Config, ps: seq<PeerConfig>, n: nat)
    requires n < |ps|
    ensures KeySet(ps[..n + 1]) == KeySet(ps[..n]) + {ps[n].publicKey}
    ensures Wrap(base, AllChunks(ps[..n + 1]))
         == Wrap(base, AllChunks(ps[..n])) + Wrap(base, ChunksAfter(ps[n], KeySet(ps[..n])))
  {
    AllChunksSnoc(ps, n);
    WrapConcat(base, AllChunks(ps[..n]), ChunksAfter(ps[n], KeySet(ps[..n])));
  }

  /** The message of the next chunk, and the messages of what is left. */
  lemma {:induction false} WrapPeerChunks(base: Config, p: PeerConfig, full: bool)
    ensures Wrap(base, PeerChunks(p, full))
         == [Message(base, Head(p, full))]
          + if EntryCount(p) <= IP_BATCH_CHUNK then [] else Wrap(base, PeerChunks(Tail(p), false))
  {
    WrapConcat(base, [Head(p, full)], if EntryCount(p) <= IP_BATCH_CHUNK then [] else PeerChunks(Tail(p), false));
  }

  /** One turn of the inner loop takes one message off what is left to send. */
  lemma {:induction false} OneTurn(base: Config, p: PeerConfig, known: set<Key>)
    ensures var last := EntryCount(p) <= IP_BATCH_CHUNK;
            && Wrap(base, ChunksAfter(p, known))
               == [Message(base, HeadAfter(p, known))]
                  + (if last then [] else Wrap(base, ChunksAfter(Tail(p), known + {p.publicKey})))
            && Tail(p).publicKey == p.publicKey
            && (!last ==> EntryCount(Tail(p)) < EntryCount(p))
  {
    hide Wrap, PeerChunks, Message;
    WrapPeerChunks(base, p, IsNew(p, known));
  }

  lemma {:induction false} WrapConcat(base: Config, a: seq<PeerConfig>, b: seq<PeerConfig>)
    ensures Wrap(base, a + b) == Wrap(base, a) + Wrap(base, b)
    decreases |b|
  {
    if b == [] {
      assert a + b == a;
    } else {
      assert (a + b)[..|a + b| - 1] == a + b[..|b| - 1];
      WrapConcat(base, a, b[..|b| - 1]);
    }
  }

  lemma {:induction false} WrapBase(cfg: Config, a: seq<PeerConfig>)
    ensures Wrap(Base(cfg), a) == Wrap(cfg, a)
  {
    if a == [] {
    } else {
      WrapBase(cfg, a[..|a| - 1]);
    }
  }

  /** A configuration is split only when it has peers, so a split sends at least one message. */
  lemma {:induction false} NonEmpty(cfg: Config)
    ensures NeedsBatches(cfg) ==> |cfg.peers| >= 1
    ensures |BatchesOf(cfg)| >= 1
  {
    if NeedsBatches(cfg) {
      AllChunksSnoc(cfg.peers, |cfg.peers| - 1);
      Whole(cfg.peers);
    }
  }
}
