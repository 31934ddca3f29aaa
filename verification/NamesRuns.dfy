/**
 * Names and peers over whole runs: a call that returns no error never leaves a name
 * without its peer, whatever the configuration and however it is sent.
 */
module NamesRuns {
  import opened Wrappers
  import opened WgTypes
  import opened DeviceModel
  import opened Seqs
  import opened Batches
  import opened BatchesMeaning
  import opened BatchesExact
  import opened Conf

  /** Names whose peer the device does not have. */
  function Stale(w: World): set<Key> {
    w.names.Keys - w.device.peers.Keys
  }

  ghost predicate NeverRemoved(ps: seq<PeerConfig>, k: Key) {
    forall i :: 0 <= i < |ps| && ps[i].publicKey == k ==> !ps[i].remove
  }

  // ----- peers -----

  lemma {:induction false} StripNamesAt(ps: seq<PeerConfig>, i: nat)
    requires i < |ps|
    ensures StripNames(ps)[i] == ps[i].(name := None)
  {
    if i == |ps| - 1 {
    } else {
      StripNamesAt(ps[..|ps| - 1], i);
    }
  }

  /** Some entry makes the peer, and none after it removes it. */
  ghost predicate Made(ps: seq<PeerConfig>, k: Key) {
    exists i :: 0 <= i < |ps| && Makes(ps[i], k) && NeverRemoved(ps[i + 1..], k)
  }

  predicate Makes(p: PeerConfig, k: Key) {
    p.publicKey == k && !p.remove && !p.updateOnly
  }

  lemma {:induction false} NeverRemovedSnoc(ps: seq<PeerConfig>, p: PeerConfig, k: Key)
    ensures NeverRemoved(ps + [p], k) <==> NeverRemoved(ps, k) && !(p.publicKey == k && p.remove)
  {
    var all := ps + [p];
    if NeverRemoved(all, k) {
      assert all[|ps|] == p;
      forall i | 0 <= i < |ps| && ps[i].publicKey == k
        ensures !ps[i].remove
      {
        assert all[i] == ps[i];
      }
    }
  }

  lemma {:induction false} MadeSnoc(ps: seq<PeerConfig>, p: PeerConfig, k: Key)
    ensures Made(ps + [p], k) <==> Makes(p, k) || (Made(ps, k) && !(p.publicKey == k && p.remove))
  {
    hide NeverRemoved;
    var all := ps + [p];
    assert all[|ps|] == p && all[|ps| + 1..] == [];
    NoneRemoved(k);
    forall i | 0 <= i < |ps|
      ensures all[i] == ps[i]
      ensures NeverRemoved(all[i + 1..], k) <==> NeverRemoved(ps[i + 1..], k) && !(p.publicKey == k && p.remove)
    {
      NeverRemovedSnoc(ps[i + 1..], p, k);
      assert all[i + 1..] == ps[i + 1..] + [p];
    }
  }

  lemma {:induction false} NoneRemoved(k: Key)
    ensures NeverRemoved([], k)
  {
  }

  /** A peer is there in the end if it was made, or was there before and nothing removed it. */
  lemma {:induction false} PresentExactly(s: State, ps: seq<PeerConfig>, k: Key)
    ensures k in ApplyPeers(s, ps).peers <==> Made(ps, k) || (k in s.peers && NeverRemoved(ps, k))
  {
    hide Made, NeverRemoved;
    if ps == [] {
      NoneMade(k);
      NoneRemoved(k);
    } else {
      var init, p := ps[..|ps| - 1], ps[|ps| - 1];
      assert ps == init + [p];
      PresentExactly(s, init, k);
      NeverRemovedSnoc(init, p, k);
      MadeSnoc(init, p, k);
    }
  }

  lemma {:induction false} NoneMade(k: Key)
    ensures !Made([], k)
  {
  }

  /** Entries that agree on which peers they make and remove. */
  ghost predicate SameShape(ps: seq<PeerConfig>, qs: seq<PeerConfig>) {
    && |ps| == |qs|
    && forall i :: 0 <= i < |ps| ==>
         ps[i].publicKey == qs[i].publicKey && ps[i].remove == qs[i].remove && ps[i].updateOnly == qs[i].updateOnly
  }

  lemma {:induction false} ShapeDecides(ps: seq<PeerConfig>, qs: seq<PeerConfig>, k: Key)
    requires SameShape(ps, qs)
    ensures Made(ps, k) <==> Made(qs, k)
    ensures NeverRemoved(ps, k) <==> NeverRemoved(qs, k)
  {
    forall i | 0 <= i < |ps|
      ensures Makes(ps[i], k) == Makes(qs[i], k)
      ensures NeverRemoved(ps[i + 1..], k) <==> NeverRemoved(qs[i + 1..], k)
    {
      assert SameShape(ps[i + 1..], qs[i + 1..]);
    }
  }

  /** The entries of a configuration leave the peer on a device that had it. */
  ghost predicate Leaves(replaced: bool, ps: seq<PeerConfig>, k: Key) {
    Made(ps, k) || (!replaced && NeverRemoved(ps, k))
  }

  lemma {:induction false} NativeShape(cfg: Config)
    ensures SameShape(Native(cfg).peers, cfg.peers) && SameShape(FirstOccurrences(Native(cfg).peers), cfg.peers)
  {
    hide FirstOccurrences, StripNames;
    var ps := cfg.peers;
    var native := StripNames(ps);
    assert Native(cfg).peers == native;
    forall i | 0 <= i < |ps|
      ensures native[i] == ps[i].(name := None)
      ensures var q := FirstOccurrences(native)[i];
              q.publicKey == ps[i].publicKey && q.remove == ps[i].remove && q.updateOnly == ps[i].updateOnly
    {
      StripNamesAt(ps, i);
      FirstOccurrencesAt(native, i);
    }
  }

  /** Sent at once or in chunks, a configuration decides the same about each peer. */
  lemma {:induction false} ConfiguredLeaves(s: State, cfg: Config, batched: bool, k: Key)
    requires k in s.peers
    ensures k in Configured(s, Native(cfg), batched).peers <==> Leaves(cfg.replacePeers, cfg.peers, k)
  {
    hide SameShape, Made, NeverRemoved, FirstOccurrences;
    var native := Native(cfg);
    var start := ApplyHeader(s, native);
    NativeShape(cfg);
    PresentExactly(start, native.peers, k);
    PresentExactly(start, FirstOccurrences(native.peers), k);
    ShapeDecides(native.peers, cfg.peers, k);
    ShapeDecides(FirstOccurrences(native.peers), cfg.peers, k);
    BatchesRefine(s, native);
  }

  // ----- names -----

  /** A stored name was given to an existing peer, or was there before and nothing removed its peer. */
  lemma {:induction false} NameOrigin(names: map<Key, string>, ps: seq<PeerConfig>, exists_: set<Key>, k: Key)
    requires k in NameSteps(names, ps, exists_)
    ensures k in exists_ || (k in names && NeverRemoved(ps, k))
  {
    if ps == [] {
    } else {
      var init := ps[..|ps| - 1];
      if k in NameSteps(names, init, exists_) {
        NameOrigin(names, init, exists_, k);
      }
    }
  }

  /** The entry decides the name of the peer `k`. */
  predicate Decides(p: PeerConfig, k: Key, exists_: set<Key>) {
    p.publicKey == k && (p.remove || (k in exists_ && p.name.Some?))
  }

  function NameGiven(p: PeerConfig): Option<string> {
    if p.remove || p.name.None? || p.name.value == "" then None else p.name
  }

  function NameOf(names: map<Key, string>, k: Key): Option<string> {
    if k in names then Some(names[k]) else None
  }

  /** The name of a peer is what the last entry that decides it says. */
  lemma {:induction false} LastEntryNames(names: map<Key, string>, ps: seq<PeerConfig>, exists_: set<Key>, k: Key,
      i: nat)
    requires i < |ps| && Decides(ps[i], k, exists_)
    requires forall j :: i < j < |ps| ==> !Decides(ps[j], k, exists_)
    ensures NameOf(NameSteps(names, ps, exists_), k) == NameGiven(ps[i])
  {
    if i == |ps| - 1 {
    } else {
      assert !Decides(ps[|ps| - 1], k, exists_);
      LastEntryNames(names, ps[..|ps| - 1], exists_, k, i);
    }
  }

  lemma {:induction false} UndecidedNames(names: map<Key, string>, ps: seq<PeerConfig>, exists_: set<Key>, k: Key)
    requires forall i :: 0 <= i < |ps| ==> !Decides(ps[i], k, exists_)
    ensures NameOf(NameSteps(names, ps, exists_), k) == NameOf(names, k)
  {
    if ps == [] {
    } else {
      assert !Decides(ps[|ps| - 1], k, exists_);
      UndecidedNames(names, ps[..|ps| - 1], exists_, k);
    }
  }

  // ----- calls -----

  /** The keys that an entry of the configuration decides, given the peers that the device then has. */
  ghost predicate Undecided(cfg: Config, k: Key, device: State) {
    forall i :: 0 <= i < |cfg.peers| ==> !Decides(cfg.peers[i], k, device.peers.Keys)
  }

  /** A name that no entry decides is kept, unless all peers are replaced. */
  lemma {:induction false} OtherNamesKept(w: World, cfg: Config, batched: bool, k: Key)
    requires Undecided(cfg, k, ApplyWorld(w, cfg, batched, NoFault).device)
    ensures NameOf(ApplyWorld(w, cfg, batched, NoFault).names, k) == if cfg.replacePeers then None
              else NameOf(w.names, k)
  {
    hide Configured;
    var exists_ := ApplyWorld(w, cfg, batched, NoFault).device.peers.Keys;
    UndecidedNames(if cfg.replacePeers then map[] else w.names, cfg.peers, exists_, k);
  }

  /** A name that some entry decides is what the last such entry gives. */
  lemma {:induction false} DecidedNameGiven(w: World, cfg: Config, batched: bool, k: Key, i: nat)
    requires i < |cfg.peers|
    requires Decides(cfg.peers[i], k, ApplyWorld(w, cfg, batched, NoFault).device.peers.Keys)
    requires forall j :: i < j < |cfg.peers| ==>
               !Decides(cfg.peers[j], k, ApplyWorld(w, cfg, batched, NoFault).device.peers.Keys)
    ensures NameOf(ApplyWorld(w, cfg, batched, NoFault).names, k) == NameGiven(cfg.peers[i])
  {
    hide Configured;
    var exists_ := ApplyWorld(w, cfg, batched, NoFault).device.peers.Keys;
    LastEntryNames(if cfg.replacePeers then map[] else w.names, cfg.peers, exists_, k, i);
  }

  /** A call that fails leaves all names as they were; once the device has accepted it, it stays configured. */
  lemma {:induction false} FailureKeepsNames(w: World, cfg: Config, batched: bool, fault: Fault)
    requires fault != NoFault
    ensures var failed, done := ApplyWorld(w, cfg, batched, fault), ApplyWorld(w, cfg, batched, NoFault);
            && failed.names == w.names
            && (fault == DeviceFails || fault == StoreFails ==> failed.device == done.device)
            && (fault.ConfigureFails? && !batched ==> failed.device == w.device)
            && (fault == ConfigureFails(0) ==> failed.device == w.device)
            && (fault.ConfigureFails? && fault.messages >= |BatchesOf(Native(cfg))| && batched ==>
                  failed.device == done.device)
  {
    hide BatchesOf, ApplyConfig, Native;
    Whole(BatchesOf(Native(cfg)));
    assert BatchesOf(Native(cfg))[..0] == [];
  }

  /** A call that returns no error adds no stale name, and replacing the peers clears them all. */
  lemma {:induction false} ApplyAddsNoStale(w: World, cfg: Config, batched: bool)
    ensures var after := ApplyWorld(w, cfg, batched, NoFault);
            Stale(after) <= Stale(w) && (cfg.replacePeers ==> Stale(after) == {})
  {
    var after := ApplyWorld(w, cfg, batched, NoFault);
    forall k | k in Stale(after)
      ensures !cfg.replacePeers && k in Stale(w)
    {
      NameOrigin(if cfg.replacePeers then map[] else w.names, cfg.peers, after.device.peers.Keys, k);
      if k in w.device.peers {
        ConfiguredLeaves(w.device, cfg, batched, k);
      }
    }
  }

  datatype Call = ApplyCall(cfg: Config) | SyncCall(cfg: Config, current: seq<Peer>)

  /** The configuration a call applies. */
  function Applied(c: Call): Config {
    match c
    case ApplyCall(cfg) => cfg
    case SyncCall(cfg, current) => SyncConfig(current, cfg)
  }

  function Run(w: World, calls: seq<Call>, batched: bool): World
  {
    if calls == [] then w
    else ApplyWorld(Run(w, calls[..|calls| - 1], batched), Applied(calls[|calls| - 1]), batched, NoFault)
  }

  /** Over every run of calls that return no error, every named key stays a peer of the device. */
  lemma {:induction false} NamesStayPeers(w: World, calls: seq<Call>, batched: bool)
    ensures Stale(Run(w, calls, batched)) <= Stale(w)
  {
    if calls == [] {
    } else {
      var init, c := calls[..|calls| - 1], calls[|calls| - 1];
      NamesStayPeers(w, init, batched);
      ApplyAddsNoStale(Run(w, init, batched), Applied(c), batched);
    }
  }

  lemma {:induction false} NamedKeysArePeers(w: World, calls: seq<Call>, batched: bool)
    requires w.names.Keys <= w.device.peers.Keys
    ensures Run(w, calls, batched).names.Keys <= Run(w, calls, batched).device.peers.Keys
  {
    NamesStayPeers(w, calls, batched);
    var after := Run(w, calls, batched);
    forall k | k in after.names
      ensures k in after.device.peers
    {
      assert k !in Stale(after);
    }
  }

  // ----- calls that fail -----

  /** The stored names that belong to peers. */
  function Named(w: World): set<Key> {
    w.names.Keys * w.device.peers.Keys
  }

  lemma {:induction false} StaleExactly(w: World, device: State)
    ensures Stale(World(device, w.names)) <= Stale(w) <==> Named(w) <= device.peers.Keys
  {
  }

  /**
   * A call that fails once the device is configured, because it cannot be read back or the
   * names cannot be stored, leaves no stale name exactly when the configuration leaves every
   * named peer of the device.
   */
  lemma {:induction false} FailedCallExactly(w: World, cfg: Config, batched: bool, fault: Fault)
    requires fault == DeviceFails || fault == StoreFails
    ensures Stale(ApplyWorld(w, cfg, batched, fault)) <= Stale(w)
            <==> forall k <- Named(w) :: Leaves(cfg.replacePeers, cfg.peers, k)
  {
    hide Leaves, Configured, Native;
    var device := Configured(w.device, Native(cfg), batched);
    StaleExactly(w, device);
    forall k | k in Named(w)
      ensures k in device.peers <==> Leaves(cfg.replacePeers, cfg.peers, k)
    {
      ConfiguredLeaves(w.device, cfg, batched, k);
    }
  }

  /** How many messages reach the device of a call that fails while configuring. */
  function Reached(cfg: Config, batched: bool, messages: nat): nat {
    if batched then Min(messages, |BatchesOf(cfg)|) else 0
  }

  /** Only the first message may replace the peers. */
  predicate Replaced(cfg: Config, n: nat) {
    n > 0 && cfg.replacePeers
  }

  /** The entries in the first `n` messages of a configuration. */
  function EntriesIn(cfg: Config, n: nat): seq<PeerConfig>
    requires n <= |BatchesOf(cfg)|
  {
    if n == 0 then [] else if NeedsBatches(cfg) then AllChunks(cfg.peers)[..n] else cfg.peers
  }

  lemma {:induction false} FirstMessages(s: State, cfg: Config, n: nat)
    requires 0 < n <= |BatchesOf(cfg)|
    ensures ApplyAll(s, BatchesOf(cfg)[..n]) == ApplyPeers(ApplyHeader(s, cfg), EntriesIn(cfg, n))
  {
    hide ApplyPeers, ApplyHeader, ApplyPeer;
    if NeedsBatches(cfg) {
      var chunks := AllChunks(cfg.peers);
      WrapPrefix(cfg, chunks, n);
      assert ReplaceOnce(Wrap(cfg, chunks))[..n] == ReplaceOnce(Wrap(cfg, chunks[..n]));
      WrapMeaning(s, cfg, chunks[..n]);
    } else {
      assert BatchesOf(cfg)[..n] == [cfg] && [cfg][..0] == [];
      assert ApplyAll(s, [cfg]) == ApplyConfig(ApplyAll(s, []), cfg);
    }
  }

  lemma {:induction false} WrapPrefix(base: Config, chunks: seq<PeerConfig>, n: nat)
    requires n <= |chunks|
    ensures Wrap(base, chunks)[..n] == Wrap(base, chunks[..n])
  {
    if n < |chunks| {
      var init := chunks[..|chunks| - 1];
      WrapPrefix(base, init, n);
      assert init[..n] == chunks[..n];
      assert Wrap(base, chunks)[..n] == Wrap(base, init)[..n];
    } else {
      Whole(chunks);
      Whole(Wrap(base, chunks));
    }
  }

  /** The same for a call that fails while configuring, about the messages that reached the device. */
  lemma {:induction false} InterruptedCallExactly(w: World, cfg: Config, batched: bool, messages: nat)
    ensures var native := Native(cfg);
            var n := Reached(native, batched, messages);
            Stale(ApplyWorld(w, cfg, batched, ConfigureFails(messages))) <= Stale(w)
            <==> forall k <- Named(w) :: Leaves(Replaced(cfg, n), EntriesIn(native, n), k)
  {
    hide BatchesOf, EntriesIn, Leaves, StripNames;
    var native := Native(cfg);
    var n := Reached(native, batched, messages);
    var device := Interrupted(w.device, native, batched, messages);
    StaleExactly(w, device);
    forall k | k in Named(w)
      ensures k in device.peers <==> Leaves(Replaced(cfg, n), EntriesIn(native, n), k)
    {
      InterruptedLeaves(w.device, native, batched, messages, k);
    }
  }

  lemma {:induction false} InterruptedLeaves(s: State, cfg: Config, batched: bool, messages: nat, k: Key)
    requires k in s.peers
    ensures var n := Reached(cfg, batched, messages);
            k in Interrupted(s, cfg, batched, messages).peers <==>
              Leaves(Replaced(cfg, n), EntriesIn(cfg, n), k)
  {
    hide BatchesOf, Made, NeverRemoved, AllChunks;
    var n := Reached(cfg, batched, messages);
    if n > 0 {
      FirstMessages(s, cfg, n);
      PresentExactly(ApplyHeader(s, cfg), EntriesIn(cfg, n), k);
    } else {
      NoneMade(k);
      NoneRemoved(k);
      if batched {
        assert BatchesOf(cfg)[..0] == [];
      }
    }
  }

  /** A configuration that only removes one peer. */
  function RemovalOnly(k: Key): Config {
    Config(None, None, None, false, [Removal(k)])
  }

  lemma {:induction false} RemovalIsSmall(k: Key)
    ensures !NeedsBatches(RemovalOnly(k))
  {
    hide Native;
    var ps := [Removal(k)];
    assert ps[..0] == [];
    assert TotalEntries(ps) == TotalEntries([]) + EntryCount(Removal(k));
  }

  lemma {:induction false} RemovalIsNative(k: Key)
    ensures Native(RemovalOnly(k)) == RemovalOnly(k)
  {
    hide NeedsBatches;
    var p := Removal(k);
    assert [p][..0] == [];
    assert p.(name := None) == p;
    assert StripNames([p]) == StripNames([]) + [p];
  }

  lemma {:induction false} RemovalApplied(s: State, k: Key)
    requires k in s.peers
    ensures ApplyConfig(s, RemovalOnly(k)) == RemovePeer(s, k)
  {
    var ps := [Removal(k)];
    assert ps[..0] == [];
    assert ApplyPeers(s, ps) == ApplyPeer(s, Removal(k));
  }

  lemma {:induction false} RemovalConfigured(s: State, k: Key, batched: bool)
    requires k in s.peers
    ensures Configured(s, Native(RemovalOnly(k)), batched) == RemovePeer(s, k)
  {
    hide NeedsBatches, Native, RemovalOnly, ApplyConfig, RemovePeer, ApplyAll, BatchesOf, Merged;
    RemovalIsSmall(k);
    RemovalIsNative(k);
    RemovalApplied(s, k);
    BatchesRefine(s, RemovalOnly(k));
  }

  /** A call that fails to store the names may leave one behind: the name of a removed peer. */
  lemma {:induction false} FailedStoreLeavesName(s: State, k: Key, batched: bool)
    requires k in s.peers
    ensures var w := World(s, map[k := "a"]);
            Stale(w) == {} && Stale(ApplyWorld(w, RemovalOnly(k), batched, StoreFails)) == {k}
  {
    hide RemovalOnly, Native, Configured;
    RemovalConfigured(s, k, batched);
  }
}
