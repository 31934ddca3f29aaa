/** Reassembly undoes fragmentation, however the dump was cut. */
module ReassemblyInverts {
  import opened WgTypes
  import opened Conf
  import opened Reassembly

  /** The first piece of each peer, in order of appearance. */
  function FirstPieces(pieces: seq<Peer>): seq<Peer>
  {
    if pieces == [] then []
    else
      var init, p := pieces[..|pieces| - 1], pieces[|pieces| - 1];
      FirstPieces(init) + if p.publicKey in PeerKeys(init) then [] else [p]
  }

  /** The allowed IPs of all pieces of one peer, in order. */
  function NetsOf(pieces: seq<Peer>, k: Key): seq<Cidr>
  {
    if pieces == [] then []
    else
      var init, p := pieces[..|pieces| - 1], pieces[|pieces| - 1];
      NetsOf(init, k) + if p.publicKey == k then p.allowedIPs else []
  }

  /**
   * The pieces of all messages are a cut of `peers`: the first piece of each peer, in the
   * order of the device, carries everything but allowed IPs, and its pieces together, in
   * order, carry its allowed IPs. Pieces of different peers may be interleaved.
   */
  ghost predicate CutOf(pieces: seq<Peer>, peers: seq<Peer>) {
    && |FirstPieces(pieces)| == |peers|
    && forall i :: 0 <= i < |peers| ==>
         peers[i] == WithNets(FirstPieces(pieces)[i], NetsOf(pieces, peers[i].publicKey))
  }

  /** Messages that together dump `d`; the first one carries the device fields. */
  ghost predicate Fragments(msgs: seq<Device>, d: Device) {
    && msgs != []
    && WithPeers(msgs[0], d.peers) == d
    && CutOf(Flatten(msgs), d.peers)
  }

  // ----- merging from nothing -----

  lemma {:induction false} FirstPiecesKeys(pieces: seq<Peer>)
    ensures PeerKeys(FirstPieces(pieces)) == PeerKeys(pieces)
    ensures DistinctPeers(FirstPieces(pieces))
  {
    if pieces == [] {
    } else {
      var init, p := pieces[..|pieces| - 1], pieces[|pieces| - 1];
      FirstPiecesKeys(init);
      PeerKeysSnoc(init, p);
      assert pieces == init + [p];
      if p.publicKey !in PeerKeys(init) {
        PeerKeysSnoc(FirstPieces(init), p);
        forall i | 0 <= i < |FirstPieces(init)|
          ensures FirstPieces(init)[i].publicKey != p.publicKey
        {
          assert FirstPieces(init)[i] in FirstPieces(init);
        }
      } else {
        assert FirstPieces(pieces) == FirstPieces(init);
      }
    }
  }

  /** The peer at `i` is the first piece of its key with the networks of all its pieces. */
  ghost predicate MergedAt(target: seq<Peer>, pieces: seq<Peer>, i: nat)
    requires i < |target| && i < |FirstPieces(pieces)|
  {
    var first := FirstPieces(pieces)[i];
    target[i] == WithNets(first, NetsOf(pieces, first.publicKey))
  }

  lemma {:induction false} NoNetsOf(pieces: seq<Peer>, k: Key)
    requires k !in PeerKeys(pieces)
    ensures NetsOf(pieces, k) == []
  {
    if pieces == [] {
    } else {
      var init, p := pieces[..|pieces| - 1], pieces[|pieces| - 1];
      PeerKeysSnoc(init, p);
      assert pieces == init + [p];
      NoNetsOf(init, k);
    }
  }

  /** `target` is what the pieces amount to. */
  ghost predicate Merged(target: seq<Peer>, pieces: seq<Peer>) {
    && |target| == |FirstPieces(pieces)|
    && forall i :: 0 <= i < |target| ==> MergedAt(target, pieces, i)
  }

  lemma {:induction false} MergeMeaning(pieces: seq<Peer>)
    ensures Merged(MergeAll([], pieces), pieces)
  {
    if pieces == [] {
    } else {
      var init, p := pieces[..|pieces| - 1], pieces[|pieces| - 1];
      assert pieces == init + [p];
      MergeMeaning(init);
      FirstPiecesKeys(init);
      var target := MergeAll([], init);
      SameKeys(target, FirstPieces(init), init);
      if p.publicKey in PeerKeys(init) {
        MergeContinues(target, init, p);
      } else {
        MergeStarts(target, init, p);
      }
    }
  }

  /** The first piece of a new peer starts it. */
  lemma {:induction false} MergeStarts(target: seq<Peer>, init: seq<Peer>, p: Peer)
    requires p.publicKey !in PeerKeys(init) && Merged(target, init)
    ensures Merged(target + [p], init + [p])
  {
    assert (init + [p])[..|init + [p]| - 1] == init;
    NoNetsOf(init, p.publicKey);
    FirstPiecesKeys(init);
    forall i | 0 <= i < |target|
      ensures MergedAt(target + [p], init + [p], i)
    {
      assert MergedAt(target, init, i);
      assert FirstPieces(init)[i] in FirstPieces(init);
    }
  }

  lemma {:induction false} SameKeys(target: seq<Peer>, firsts: seq<Peer>, pieces: seq<Peer>)
    requires firsts == FirstPieces(pieces) && |target| == |firsts|
    requires forall i :: 0 <= i < |target| ==> MergedAt(target, pieces, i)
    ensures PeerKeys(target) == PeerKeys(firsts)
  {
    forall i | 0 <= i < |target|
      ensures target[i].publicKey == firsts[i].publicKey
    {
      assert MergedAt(target, pieces, i);
    }
    forall k | k in PeerKeys(target)
      ensures k in PeerKeys(firsts)
    {
      var i :| 0 <= i < |target| && target[i].publicKey == k;
      assert firsts[i] in firsts;
    }
    forall k | k in PeerKeys(firsts)
      ensures k in PeerKeys(target)
    {
      var i :| 0 <= i < |firsts| && firsts[i].publicKey == k;
      assert target[i] in target;
    }
  }

  /** One more piece of a known peer goes to that peer and to no other. */
  lemma {:induction false} MergeContinues(target: seq<Peer>, init: seq<Peer>, p: Peer)
    requires p.publicKey in PeerKeys(target) && p.publicKey in PeerKeys(init)
    requires DistinctPeers(FirstPieces(init)) && Merged(target, init)
    ensures Merged(MergePeer(target, p), init + [p])
  {
    var m := IndexOf(target, p.publicKey);
    assert (init + [p])[..|init + [p]| - 1] == init;
    assert FirstPieces(init + [p]) == FirstPieces(init);
    forall i | 0 <= i < |target|
      ensures MergedAt(MergePeer(target, p), init + [p], i)
    {
      assert MergedAt(target, init, i) && MergedAt(target, init, m);
      if i < m {
        assert FirstPieces(init)[i].publicKey != FirstPieces(init)[m].publicKey;
      }
    }
  }

  // ----- the first message is not merged -----

  lemma {:induction false} MergeDistinct(peers: seq<Peer>)
    requires DistinctPeers(peers)
    ensures MergeAll([], peers) == peers
  {
    if peers == [] {
    } else {
      var init, p := peers[..|peers| - 1], peers[|peers| - 1];
      MergeDistinct(init);
      forall q | q in init
        ensures q.publicKey != p.publicKey
      {
      }
      assert p.publicKey !in PeerKeys(init);
    }
  }

  lemma {:induction false} FlattenFirst(msgs: seq<Device>)
    requires msgs != []
    ensures Flatten(msgs) == msgs[0].peers + Flatten(msgs[1..])
  {
    if |msgs| == 1 {
      assert msgs[..0] == [];
    } else {
      var init := msgs[..|msgs| - 1];
      FlattenFirst(init);
      assert init[1..] == msgs[1..][..|msgs[1..]| - 1];
      assert (msgs[0].peers + Flatten(init[1..])) + msgs[|msgs| - 1].peers
          == msgs[0].peers + (Flatten(init[1..]) + msgs[|msgs| - 1].peers);
    }
  }

  lemma {:induction false} MergeKeepsKeys(target: seq<Peer>, pieces: seq<Peer>, i: nat)
    requires i < |target|
    ensures i < |MergeAll(target, pieces)| && MergeAll(target, pieces)[i].publicKey == target[i].publicKey
  {
    if pieces == [] {
    } else {
      MergeKeepsKeys(target, pieces[..|pieces| - 1], i);
    }
  }

  lemma {:induction false} CutKeys(pieces: seq<Peer>, peers: seq<Peer>)
    requires CutOf(pieces, peers)
    ensures DistinctPeers(peers)
    ensures MergeAll([], pieces) == peers
  {
    FirstPiecesKeys(pieces);
    MergeMeaning(pieces);
    forall i | 0 <= i < |peers|
      ensures peers[i].publicKey == FirstPieces(pieces)[i].publicKey
      ensures MergeAll([], pieces)[i] == peers[i]
    {
      assert MergedAt(MergeAll([], pieces), pieces, i);
    }
  }

  /**
   * However a device is cut into messages, parseDevice returns it exactly when the first
   * message does not already repeat a key.
   */
  lemma {:induction false} ParseDeviceInverts(msgs: seq<Device>, d: Device)
    requires Fragments(msgs, d)
    ensures Reassembled(msgs) == d <==> DistinctPeers(msgs[0].peers)
  {
    FlattenFirst(msgs);
    CutKeys(Flatten(msgs), d.peers);
    var first, rest := msgs[0].peers, Flatten(msgs[1..]);
    if DistinctPeers(first) {
      MergeAllConcat([], first, rest);
      MergeDistinct(first);
      assert Reassembled(msgs) == WithPeers(msgs[0], d.peers);
    } else {
      var i, j :| 0 <= i < j < |first| && first[i].publicKey == first[j].publicKey;
      MergeKeepsKeys(first, rest, i);
      MergeKeepsKeys(first, rest, j);
    }
  }

  function BarePeer(k: Key, nets: seq<Cidr>): Peer {
    EMPTY_PEER.(publicKey := k, allowedIPs := nets)
  }

  function BareDevice(peers: seq<Peer>): Device {
    EMPTY_DEVICE.(peers := peers)
  }

  /** A first message that continues a peer within itself: the dump of one peer stays one of two. */
  lemma {:induction false} RepeatInFirstStays(k: Key, a: Cidr, b: Cidr)
    ensures var msg, d := BareDevice([BarePeer(k, [a]), BarePeer(k, [b])]), BareDevice([BarePeer(k, [a, b])]);
            Fragments([msg], d) && Reassembled([msg]) == msg && msg != d
  {
    var p, q := BarePeer(k, [a]), BarePeer(k, [b]);
    var msg, d := BareDevice([p, q]), BareDevice([BarePeer(k, [a, b])]);
    assert [msg][..0] == [] && [msg][1..] == [];
    assert Flatten([msg]) == Flatten([]) + msg.peers;
    TwoPieces(p, q);
    assert |msg.peers| == 2 && |d.peers| == 1;
  }

  lemma {:induction false} TwoPieces(p: Peer, q: Peer)
    requires p.publicKey == q.publicKey
    ensures FirstPieces([p, q]) == [p] && NetsOf([p, q], p.publicKey) == p.allowedIPs + q.allowedIPs
  {
    assert [p, q][..1] == [p] && [p][..0] == [];
    assert FirstPieces([p]) == FirstPieces([]) + [p];
    assert NetsOf([p], p.publicKey) == NetsOf([], p.publicKey) + p.allowedIPs;
    assert p in [p];
  }
}
