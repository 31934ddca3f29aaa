/**
 * Update-only entries act only on a peer that is there. Where earlier entries decide whether
 * it is, whatever the device was, such an entry is an ordinary one or none at all.
 */
module UpdateOnly {
  import opened WgTypes
  import opened DeviceModel
  import opened Seqs
  import opened Batches
  import opened BatchesExact
  import opened SyncConvergence

  /** An entry that does nothing for an absent peer, and does not remove it either. */
  predicate Waits(p: PeerConfig) {
    p.updateOnly && !p.remove
  }

  /** Before each update-only entry some entry of its key makes or removes the peer. */
  ghost predicate Determined(ps: seq<PeerConfig>) {
    forall i :: 0 <= i < |ps| && Waits(ps[i]) ==> Anchored(ps[..i], ps[i].publicKey)
  }

  /** Whether the entries leave the peer on a device that did not have it. */
  predicate There(ps: seq<PeerConfig>, k: Key)
  {
    if ps == [] then false
    else
      var p := ps[|ps| - 1];
      if p.publicKey != k then There(ps[..|ps| - 1], k)
      else !p.remove && (!p.updateOnly || There(ps[..|ps| - 1], k))
  }

  function Ordinary(p: PeerConfig): PeerConfig {
    p.(updateOnly := false)
  }

  /** The entries that take effect: an update-only one counts where its peer is there by then. */
  function Effective(ps: seq<PeerConfig>): seq<PeerConfig>
  {
    if ps == [] then []
    else
      var init, p := ps[..|ps| - 1], ps[|ps| - 1];
      Effective(init) + if !Waits(p) then [p] else When(There(init, p.publicKey), Ordinary(p))
  }

  lemma {:induction false} ThereFromNothing(s: State, ps: seq<PeerConfig>, k: Key)
    requires k !in s.peers
    ensures k in ApplyPeers(s, ps).peers <==> There(ps, k)
  {
    hide ApplyPeer;
    if ps == [] {
    } else {
      var init, p := ps[..|ps| - 1], ps[|ps| - 1];
      ThereFromNothing(s, init, k);
      PresenceStep(ApplyPeers(s, init), p, k);
    }
  }

  /** Once some entry makes or removes a peer, its presence no longer depends on the device. */
  lemma {:induction false} AnchoredThere(s: State, ps: seq<PeerConfig>, k: Key)
    requires Anchored(ps, k)
    ensures k in ApplyPeers(s, ps).peers <==> There(ps, k)
  {
    hide ApplyPeers, Anchored;
    PresenceAgrees(s, EMPTY_STATE, ps, k);
    ThereFromNothing(EMPTY_STATE, ps, k);
  }

  lemma {:induction false} OrdinaryActs(s: State, p: PeerConfig)
    requires Waits(p)
    ensures ApplyPeer(s, p) == if p.publicKey in s.peers then ApplyPeer(s, Ordinary(p)) else s
  {
    hide ApplyOps, Entries;
    assert Entries(Ordinary(p)) == Entries(p) by {
      SameOperations(p);
    }
  }

  lemma {:induction false} SameOperations(p: PeerConfig)
    ensures Entries(Ordinary(p)) == Entries(p)
  {
  }

  lemma {:induction false} DeterminedInit(ps: seq<PeerConfig>)
    requires Determined(ps) && ps != []
    ensures Determined(ps[..|ps| - 1])
    ensures Waits(ps[|ps| - 1]) ==> Anchored(ps[..|ps| - 1], ps[|ps| - 1].publicKey)
  {
    hide Anchored;
    var init := ps[..|ps| - 1];
    forall i | 0 <= i < |init| && Waits(init[i])
      ensures Anchored(init[..i], init[i].publicKey)
    {
      assert init[i] == ps[i] && init[..i] == ps[..i];
    }
  }

  /** On every device the effective entries do what all of them do. */
  lemma {:induction false} EffectiveSame(s: State, ps: seq<PeerConfig>)
    requires Determined(ps)
    ensures ApplyPeers(s, Effective(ps)) == ApplyPeers(s, ps)
  {
    hide ApplyPeer, Determined, Anchored, There, Waits, Ordinary;
    if ps == [] {
    } else {
      var init, p := ps[..|ps| - 1], ps[|ps| - 1];
      var before := ApplyPeers(s, init);
      DeterminedInit(ps);
      EffectiveSame(s, init);
      if Waits(p) {
        AnchoredThere(s, init, p.publicKey);
        OrdinaryActs(before, p);
        if There(init, p.publicKey) {
          OneMoreEntry(s, Effective(init), Ordinary(p));
        } else {
          Assoc(Effective(init), [], []);
        }
      } else {
        OneMoreEntry(s, Effective(init), p);
      }
    }
  }

  lemma {:induction false} OneMoreEntry(s: State, ps: seq<PeerConfig>, p: PeerConfig)
    ensures ApplyPeers(s, ps + [p]) == ApplyPeer(ApplyPeers(s, ps), p)
  {
    hide ApplyPeer;
    assert (ps + [p])[..|ps|] == ps;
  }

  lemma {:induction false} PlainSnoc(ps: seq<PeerConfig>, p: PeerConfig)
    requires NoUpdateOnly(ps) && !Waits(p)
    ensures NoUpdateOnly(ps + [p])
  {
    var all := ps + [p];
    assert all[|ps|] == p && forall i :: 0 <= i < |ps| ==> all[i] == ps[i];
  }

  lemma {:induction false} TotalSnoc(ps: seq<PeerConfig>, p: PeerConfig)
    ensures TotalEntries(ps + [p]) == TotalEntries(ps) + EntryCount(p)
  {
    hide EntryCount;
    assert (ps + [p])[..|ps|] == ps;
  }

  lemma {:induction false} OrdinaryWaits(p: PeerConfig)
    ensures EntryCount(Ordinary(p)) == EntryCount(p) && !Waits(Ordinary(p))
  {
  }

  lemma {:induction false} EffectivePlain(ps: seq<PeerConfig>)
    ensures NoUpdateOnly(Effective(ps)) && TotalEntries(Effective(ps)) <= TotalEntries(ps)
  {
    hide NoUpdateOnly, TotalEntries, EntryCount, Waits, There, Ordinary;
    if ps == [] {
      NothingPlain();
    } else {
      var init, p := ps[..|ps| - 1], ps[|ps| - 1];
      EffectivePlain(init);
      OrdinaryWaits(p);
      TotalSnoc(init, p);
      assert ps == init + [p];
      if !Waits(p) {
        PlainSnoc(Effective(init), p);
        TotalSnoc(Effective(init), p);
      } else if There(init, p.publicKey) {
        PlainSnoc(Effective(init), Ordinary(p));
        TotalSnoc(Effective(init), Ordinary(p));
      } else {
        Assoc(Effective(init), [], []);
      }
    }
  }

  lemma {:induction false} NothingPlain()
    ensures NoUpdateOnly([]) && TotalEntries([]) == 0
  {
  }

  /** No key is lost: the first entry of each is not an update-only one. */
  lemma {:induction false} EffectiveKeys(ps: seq<PeerConfig>)
    requires Determined(ps)
    ensures KeySet(Effective(ps)) == KeySet(ps)
  {
    hide Determined, There;
    if ps == [] {
    } else {
      var init, p := ps[..|ps| - 1], ps[|ps| - 1];
      DeterminedInit(ps);
      EffectiveKeys(init);
      KeySetSnoc(init, p);
      assert ps == init + [p];
      if Waits(p) {
        assert p.publicKey in KeySet(init);
        KeySetSnoc(Effective(init), Ordinary(p));
        Assoc(Effective(init), [], []);
      } else {
        KeySetSnoc(Effective(init), p);
      }
    }
  }

  lemma {:induction false} PlainInit(ps: seq<PeerConfig>)
    requires NoUpdateOnly(ps) && ps != []
    ensures NoUpdateOnly(ps[..|ps| - 1]) && !Waits(ps[|ps| - 1])
  {
    var init := ps[..|ps| - 1];
    assert forall i :: 0 <= i < |init| ==> init[i] == ps[i];
  }

  /** Lists without update-only entries are what they were. */
  lemma {:induction false} PlainIsEffective(ps: seq<PeerConfig>)
    requires NoUpdateOnly(ps)
    ensures Effective(ps) == ps
  {
    hide NoUpdateOnly, Waits, There, Ordinary;
    if ps == [] {
    } else {
      PlainInit(ps);
      PlainIsEffective(ps[..|ps| - 1]);
    }
  }

  /** Nothing has to be determined in them. */
  lemma {:induction false} PlainIsDetermined(ps: seq<PeerConfig>)
    requires NoUpdateOnly(ps)
    ensures Determined(ps)
  {
    hide Anchored;
  }
}
