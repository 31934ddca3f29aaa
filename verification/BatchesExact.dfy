/**
 * When splitting a configuration keeps its meaning: always when the public keys are
 * distinct, and for no list of public keys with a repetition.
 */
module BatchesExact {
  import opened Wrappers
  import opened WgTypes
  import opened DeviceModel
  import opened Seqs
  import opened Batches
  import opened BatchesMeaning

  ghost predicate Distinct(keys: seq<Key>) {
    forall i, j :: 0 <= i < j < |keys| ==> keys[i] != keys[j]
  }

  function KeysOf(ps: seq<PeerConfig>): (r: seq<Key>)
    ensures |r| == |ps|
  {
    seq(|ps|, i requires 0 <= i < |ps| => ps[i].publicKey)
  }

  /** An entry that changes no setting of its peer, or removes it. */
  predicate SetsNothing(p: PeerConfig) {
    p.remove || (p.presharedKey.None? && p.endpoint.None? && p.keepalive.None? && !p.replaceAllowedIPs)
  }

  /** Only the first entry of a public key carries settings. */
  ghost predicate NoLateSettings(ps: seq<PeerConfig>) {
    forall i :: 0 <= i < |ps| && ps[i].publicKey in KeySet(ps[..i]) ==> SetsNothing(ps[i])
  }

  lemma {:induction false} SameEntry(s: State, p: PeerConfig, full: bool)
    requires full || SetsNothing(p)
    ensures ApplyPeer(s, WithSettings(p, full)) == ApplyPeer(s, p)
  {
    assert Entries(WithSettings(p, full)) == Entries(p);
  }

  lemma {:induction false} FirstOccurrencesSame(s: State, ps: seq<PeerConfig>)
    requires NoLateSettings(ps)
    ensures ApplyPeers(s, FirstOccurrences(ps)) == ApplyPeers(s, ps)
  {
    if ps == [] {
    } else {
      var init, p := ps[..|ps| - 1], ps[|ps| - 1];
      forall i | 0 <= i < |init| && init[i].publicKey in KeySet(init[..i])
        ensures SetsNothing(init[i])
      {
        assert init[..i] == ps[..i];
      }
      FirstOccurrencesSame(s, init);
      assert FirstOccurrences(ps)[..|ps| - 1] == FirstOccurrences(init);
      SameEntry(ApplyPeers(s, init), p, p.publicKey !in KeySet(init));
    }
  }

  /** Splitting keeps the meaning of every configuration whose repeated entries carry no settings. */
  lemma {:induction false} BatchesFaithful(s: State, cfg: Config)
    requires NoLateSettings(cfg.peers)
    ensures ApplyAll(s, BatchesOf(cfg)) == ApplyConfig(s, cfg)
  {
    BatchesRefine(s, cfg);
    FirstOccurrencesSame(ApplyHeader(s, cfg), cfg.peers);
  }

  lemma {:induction false} DistinctNoLate(ps: seq<PeerConfig>)
    requires Distinct(KeysOf(ps))
    ensures NoLateSettings(ps)
  {
    forall i | 0 <= i < |ps|
      ensures ps[i].publicKey !in KeySet(ps[..i])
    {
      forall j | 0 <= j < i
        ensures ps[..i][j].publicKey != ps[i].publicKey
      {
        assert KeysOf(ps)[j] != KeysOf(ps)[i];
      }
    }
  }

  // ----- exactly the lists of distinct keys -----

  /** Every configuration over these keys that is split means what it says. */
  ghost predicate Faithful(keys: seq<Key>) {
    forall s: State, cfg: Config :: KeysOf(cfg.peers) == keys && NeedsBatches(cfg) ==>
      ApplyAll(s, BatchesOf(cfg)) == ApplyConfig(s, cfg)
  }

  predicate Plain(p: PeerConfig) {
    !p.remove && !p.updateOnly
  }

  /** A preshared key stays as it is while no entry of its peer sets it. */
  lemma {:induction false} PresharedKeyKept(s: State, ps: seq<PeerConfig>, k: Key)
    requires forall p <- ps :: Plain(p) && (p.publicKey == k ==> p.presharedKey.None?)
    ensures Current(ApplyPeers(s, ps), k).presharedKey == Current(s, k).presharedKey
  {
    if ps == [] {
    } else {
      var init, p := ps[..|ps| - 1], ps[|ps| - 1];
      assert forall q <- init :: q in ps;
      assert p in ps;
      PresharedKeyKept(s, init, k);
    }
  }

  function OneKey(): Key {
    seq(KEY_LEN, i => if i == 0 then 1 else 0)
  }

  const ANY_NET := Cidr4([10, 0, 0, 0], 8)
  const EMPTY_STATE := State(ZeroKey(), 0, 0, map[], map[])

  /** Only entry `j` sets a preshared key; the first entry is large enough to be split. */
  function WitnessEntry(keys: seq<Key>, j: nat, n: nat): PeerConfig
    requires n < |keys|
  {
    PeerConfig(None, keys[n], false, false, if n == j then Some(OneKey()) else None, None, None, false,
               if n == 0 then seq(IP_BATCH_CHUNK + 1, _ => ANY_NET) else [], [])
  }

  function Witness(keys: seq<Key>, j: nat): Config {
    Config(None, None, None, false, seq(|keys|, n requires 0 <= n < |keys| => WitnessEntry(keys, j, n)))
  }

  lemma {:induction false} TotalAtLeast(ps: seq<PeerConfig>)
    requires ps != []
    ensures TotalEntries(ps) >= EntryCount(ps[0])
  {
    if |ps| > 1 {
      TotalAtLeast(ps[..|ps| - 1]);
    } else {
      assert ps[..0] == [];
    }
  }

  lemma {:induction false} FirstOccurrencesAt(ps: seq<PeerConfig>, i: nat)
    requires i < |ps|
    ensures FirstOccurrences(ps)[i] == WithSettings(ps[i], IsNew(ps[i], KeySet(ps[..i])))
  {
    var init := ps[..|ps| - 1];
    if i == |init| {
    } else {
      FirstOccurrencesAt(init, i);
      assert init[..i] == ps[..i];
    }
  }

  ghost predicate OnlySetsAt(ps: seq<PeerConfig>, j: nat) {
    && j < |ps|
    && ps[j].presharedKey == Some(OneKey())
    && forall i :: 0 <= i < |ps| ==> Plain(ps[i]) && (i != j ==> ps[i].presharedKey.None?)
  }

  /** Sent as written, the preshared key of entry `j` arrives. */
  lemma {:induction false} KeyArrives(s: State, ps: seq<PeerConfig>, j: nat)
    requires OnlySetsAt(ps, j)
    ensures Current(ApplyPeers(s, ps), ps[j].publicKey).presharedKey == OneKey()
  {
    var k, before := ps[j].publicKey, ApplyPeers(s, ps[..j + 1]);
    assert ps == ps[..j + 1] + ps[j + 1..];
    ApplyPeersConcat(s, ps[..j + 1], ps[j + 1..]);
    PresharedKeyKept(before, ps[j + 1..], k);
    Snoc(ps, j);
  }

  /** Sent in chunks, it does not when `j` repeats a key. */
  lemma {:induction false} KeyIsLost(s: State, ps: seq<PeerConfig>, j: nat, k: Key)
    requires OnlySetsAt(ps, j) && ps[j].publicKey in KeySet(ps[..j])
    ensures Current(ApplyPeers(s, FirstOccurrences(ps)), k).presharedKey == Current(s, k).presharedKey
  {
    forall i | 0 <= i < |ps|
      ensures var p := FirstOccurrences(ps)[i]; Plain(p) && p.presharedKey.None?
    {
      FirstOccurrencesAt(ps, i);
    }
    PresharedKeyKept(s, FirstOccurrences(ps), k);
  }

  /** A repeated key: the preshared key of the second entry is lost. */
  lemma {:induction false} RepeatedKeyUnfaithful(keys: seq<Key>, i: nat, j: nat)
    requires i < j < |keys| && keys[i] == keys[j]
    ensures var cfg := Witness(keys, j);
            && KeysOf(cfg.peers) == keys && NeedsBatches(cfg)
            && ApplyAll(EMPTY_STATE, BatchesOf(cfg)) != ApplyConfig(EMPTY_STATE, cfg)
  {
    hide ApplyPeers, FirstOccurrences, BatchesOf, ApplyAll;
    var cfg := Witness(keys, j);
    var ps := cfg.peers;
    TotalAtLeast(ps);
    assert ps[..j][i].publicKey == keys[j];
    KeyIsLost(EMPTY_STATE, ps, j, keys[j]);
    KeyArrives(EMPTY_STATE, ps, j);
    assert OneKey()[0] != ZeroKey()[0];
    BatchesRefine(EMPTY_STATE, cfg);
  }

  /** Splitting keeps the meaning of all configurations over `keys` exactly when no key repeats. */
  lemma {:induction false} FaithfulExactly(keys: seq<Key>)
    ensures Faithful(keys) <==> Distinct(keys)
  {
    if Distinct(keys) {
      forall s: State, cfg: Config | KeysOf(cfg.peers) == keys && NeedsBatches(cfg)
        ensures ApplyAll(s, BatchesOf(cfg)) == ApplyConfig(s, cfg)
      {
        DistinctNoLate(cfg.peers);
        BatchesFaithful(s, cfg);
      }
    } else {
      var i, j :| 0 <= i < j < |keys| && keys[i] == keys[j];
      RepeatedKeyUnfaithful(keys, i, j);
    }
  }
}
