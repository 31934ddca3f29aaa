/**
 * Applying and syncing configurations, with the table of peer names kept beside the
 * device: internal/wgconf/conf.go. The native protocol has no names, so they are
 * stripped before the device is configured and stored once it has accepted the change.
 */
module Conf {
  import opened Wrappers
  import opened WgTypes
  import opened DeviceModel
  import opened Seqs
  import opened Batches

  // ----- names -----

  function NameStep(names: map<Key, string>, p: PeerConfig, exists_: set<Key>): map<Key, string> {
    var k := p.publicKey;
    if p.remove then names - {k}
    else if k !in exists_ || p.name.None? then names
    else if p.name.value == "" then names - {k}
    else names[k := p.name.value]
  }

  function NameSteps(names: map<Key, string>, ps: seq<PeerConfig>, exists_: set<Key>): map<Key, string>
  {
    if ps == [] then names
    else NameStep(NameSteps(names, ps[..|ps| - 1], exists_), ps[|ps| - 1], exists_)
  }

  function NamesAfter(names: map<Key, string>, cfg: Config, exists_: set<Key>): map<Key, string> {
    NameSteps(if cfg.replacePeers then map[] else names, cfg.peers, exists_)
  }

  method UpdateNames(stored: map<Key, string>, cfg: Config, exists_: set<Key>) returns (names: map<Key, string>)
    ensures names == NamesAfter(stored, cfg, exists_)
  {
    names := stored;
    if cfg.replacePeers {
      names := map[];
    }
    ghost var start := names;
    for i := 0 to |cfg.peers|
      invariant names == NameSteps(start, cfg.peers[..i], exists_)
    {
      Snoc(cfg.peers, i);
      var peer := cfg.peers[i];
      if peer.remove {
        names := names - {peer.publicKey};
        continue;
      }
      if peer.publicKey !in exists_ {
        continue;
      }
      if peer.name.Some? {
        if peer.name.value == "" {
          names := names - {peer.publicKey};
        } else {
          names := names[peer.publicKey := peer.name.value];
        }
      }
    }
    Whole(cfg.peers);
  }

  function StripNames(ps: seq<PeerConfig>): (r: seq<PeerConfig>)
    ensures |r| == |ps|
  {
    if ps == [] then [] else StripNames(ps[..|ps| - 1]) + [ps[|ps| - 1].(name := None)]
  }

  function Native(cfg: Config): Config {
    Config(cfg.privateKey, cfg.listenPort, cfg.firewallMark, cfg.replacePeers, StripNames(cfg.peers))
  }

  method Stripped(cfg: Config) returns (native: Config)
    ensures native == Native(cfg)
  {
    var peers := cfg.peers;
    for i := 0 to |peers|
      invariant |peers| == |cfg.peers|
      invariant peers[..i] == StripNames(cfg.peers[..i])
      invariant peers[i..] == cfg.peers[i..]
    {
      Snoc(cfg.peers, i);
      peers := peers[i := peers[i].(name := None)];
      Snoc(peers, i);
    }
    Whole(cfg.peers);
    Whole(peers);
    native := cfg.(peers := peers);
  }

  function PeerKeys(current: seq<Peer>): set<Key> {
    set p <- current :: p.publicKey
  }

  lemma {:induction false} PeerKeysSnoc(ps: seq<Peer>, p: Peer)
    ensures PeerKeys(ps + [p]) == PeerKeys(ps) + {p.publicKey}
  {
  }

  /** The keys of a peer list: the `exists` map of the source. */
  method KeysIn(d: seq<Peer>) returns (keys: set<Key>)
    ensures keys == PeerKeys(d)
  {
    keys := {};
    for i := 0 to |d|
      invariant keys == PeerKeys(d[..i])
    {
      Snoc(d, i);
      PeerKeysSnoc(d[..i], d[i]);
      keys := keys + {d[i].publicKey};
    }
    Whole(d);
  }

  // ----- sync -----

  /** An entry that only removes the peer with this key. */
  function Removal(k: Key): PeerConfig {
    PeerConfig(None, k, true, false, None, None, None, false, [], [])
  }

  /** Removals of the current peers that are not wanted, in the order of the device. */
  function Removals(current: seq<Peer>, wanted: set<Key>): seq<PeerConfig> {
    if current == [] then []
    else
      var init, p := current[..|current| - 1], current[|current| - 1];
      Removals(init, wanted) + if p.publicKey in wanted then [] else [Removal(p.publicKey)]
  }

  method SyncPeerConfigs(current: seq<Peer>, desired: seq<PeerConfig>) returns (out: seq<PeerConfig>)
    ensures out == desired + Removals(current, KeySet(desired))
  {
    var wanted: set<Key> := {};
    out := desired;
    for i := 0 to |desired|
      invariant wanted == KeySet(desired[..i])
    {
      Snoc(desired, i);
      KeySetSnoc(desired[..i], desired[i]);
      wanted := wanted + {desired[i].publicKey};
    }
    Whole(desired);
    for i := 0 to |current|
      invariant out == desired + Removals(current[..i], wanted)
    {
      Snoc(current, i);
      if current[i].publicKey !in wanted {
        out := out + [Removal(current[i].publicKey)];
      }
    }
    Whole(current);
  }

  // ----- the device and its names -----

  /** Device configuration and stored names. */
  datatype World = World(device: State, names: map<Key, string>)

  /** Where a call may fail; a split configuration may fail after some of its messages. */
  datatype Fault = NoFault | ConfigureFails(messages: nat) | DeviceFails | StoreFails

  /** ConfigureDevice: at once, or in the messages of BuildBatches. */
  function Configured(s: State, cfg: Config, batched: bool): State {
    if batched then ApplyAll(s, BatchesOf(cfg)) else ApplyConfig(s, cfg)
  }

  function Interrupted(s: State, cfg: Config, batched: bool, messages: nat): State {
    if batched then ApplyAll(s, BatchesOf(cfg)[..Min(messages, |BatchesOf(cfg)|)]) else s
  }

  function ApplyWorld(w: World, cfg: Config, batched: bool, fault: Fault): World {
    match fault
    case ConfigureFails(n) => World(Interrupted(w.device, Native(cfg), batched, n), w.names)
    case DeviceFails => World(Configured(w.device, Native(cfg), batched), w.names)
    case StoreFails => World(Configured(w.device, Native(cfg), batched), w.names)
    case NoFault =>
      var device := Configured(w.device, Native(cfg), batched);
      World(device, NamesAfter(w.names, cfg, device.peers.Keys))
  }

  function SyncConfig(current: seq<Peer>, cfg: Config): Config {
    Config(cfg.privateKey, cfg.listenPort, cfg.firewallMark, cfg.replacePeers,
           cfg.peers + Removals(current, KeySet(cfg.peers)))
  }

  /** What Device reports: every peer of the device. */
  ghost predicate Lists(current: seq<Peer>, s: State) {
    PeerKeys(current) == s.peers.Keys
  }

  class Host {
    var device: State
    var names: map<Key, string>
    const batched: bool

    constructor (device: State, names: map<Key, string>, batched: bool)
      ensures this.device == device && this.names == names && this.batched == batched
    {
      this.device, this.names, this.batched := device, names, batched;
    }

    ghost function Value(): World
      reads this
    {
      World(device, names)
    }

    method ConfigureDevice(cfg: Config, fault: Fault) returns (ok: bool)
      modifies this`device
      ensures ok == !fault.ConfigureFails?
      ensures ok ==> device == Configured(old(device), cfg, batched)
      ensures !ok ==> device == Interrupted(old(device), cfg, batched, fault.messages)
    {
      hide BatchesOf, ApplyConfig;
      var configs := [cfg];
      if batched {
        configs := BuildBatches(cfg);
      }
      var sent := |configs|;
      if fault.ConfigureFails? {
        sent := if batched then Min(fault.messages, |configs|) else 0;
      }
      assert [cfg][..0] == [];
      ghost var s := device;
      for i := 0 to sent
        invariant device == ApplyAll(s, configs[..i])
      {
        Snoc(configs, i);
        device := ApplyConfig(device, configs[i]);
      }
      Whole(configs);
      ok := !fault.ConfigureFails?;
    }

    /** The keys of the peers, in some order. */
    method Device() returns (current: seq<Peer>)
      ensures Lists(current, device)
    {
      current := [];
      var left := device.peers.Keys;
      while left != {}
        invariant left <= device.peers.Keys
        invariant PeerKeys(current) == device.peers.Keys - left
        decreases left
      {
        var k :| k in left;
        PeerKeysSnoc(current, EMPTY_PEER.(publicKey := k));
        current := current + [EMPTY_PEER.(publicKey := k)];
        left := left - {k};
      }
    }

    method Apply(cfg: Config, fault: Fault) returns (ok: bool)
      modifies this
      ensures ok == (fault == NoFault)
      ensures Value() == ApplyWorld(old(Value()), cfg, batched, fault)
    {
      var native := Stripped(cfg);
      ok := ConfigureDevice(native, fault);
      if !ok || fault == DeviceFails {
        return false;
      }
      var d := Device();
      var exists_ := KeysIn(d);
      if fault == StoreFails {
        return false;
      }
      names := UpdateNames(names, cfg, exists_);
      ok := true;
    }

    /** `current` is what Device reported first. */
    method Sync(cfg: Config, listFails: bool, fault: Fault) returns (ok: bool, ghost current: seq<Peer>)
      modifies this
      ensures ok == (!listFails && fault == NoFault)
      ensures listFails ==> Value() == old(Value())
      ensures !listFails ==>
                && Lists(current, old(device))
                && Value() == ApplyWorld(old(Value()), SyncConfig(current, cfg), batched, fault)
    {
      current := [];
      if listFails {
        return false, current;
      }
      var d := Device();
      current := d;
      var peers := SyncPeerConfigs(d, cfg.peers);
      ok := Apply(cfg.(peers := peers), fault);
    }
  }
}
