/**
 * Rebuilding a device from a dump that arrives in several messages:
 * internal/wglinux/parse_linux.go. A peer may be continued in later messages, which then
 * add only allowed IPs; an index map finds the peer they belong to.
 */
module Reassembly {
  import opened Wrappers
  import opened WgTypes
  import opened Seqs
  import opened Conf

  // ----- merging, without the map -----

  /** The last peer with this key. */
  function IndexOf(target: seq<Peer>, k: Key): (i: nat)
    requires k in PeerKeys(target)
    ensures i < |target| && target[i].publicKey == k
    ensures forall j :: i < j < |target| ==> target[j].publicKey != k
  {
    if target[|target| - 1].publicKey == k then |target| - 1
    else
      PeerKeysSnoc(target[..|target| - 1], target[|target| - 1]);
      assert target == target[..|target| - 1] + [target[|target| - 1]];
      IndexOf(target[..|target| - 1], k)
  }

  function MergePeer(target: seq<Peer>, p: Peer): seq<Peer> {
    if p.publicKey in PeerKeys(target) then
      var i := IndexOf(target, p.publicKey);
      target[i := target[i].(allowedIPs := target[i].allowedIPs + p.allowedIPs)]
    else target + [p]
  }

  function MergeAll(target: seq<Peer>, pieces: seq<Peer>): seq<Peer>
  {
    if pieces == [] then target
    else MergePeer(MergeAll(target, pieces[..|pieces| - 1]), pieces[|pieces| - 1])
  }

  function Flatten(msgs: seq<Device>): seq<Peer>
  {
    if msgs == [] then [] else Flatten(msgs[..|msgs| - 1]) + msgs[|msgs| - 1].peers
  }

  function Reassembled(msgs: seq<Device>): Device {
    if msgs == [] then EMPTY_DEVICE
    else WithPeers(msgs[0], MergeAll(msgs[0].peers, Flatten(msgs[1..])))
  }

  // ----- the loops of the source -----

  /** `knownPeers` maps each key of the target to the index of its last peer. */
  ghost predicate Indexes(knownPeers: map<Key, nat>, target: seq<Peer>) {
    && knownPeers.Keys == PeerKeys(target)
    && forall k <- knownPeers :: knownPeers[k] == IndexOf(target, k)
  }

  method MergeDevices(first: seq<Peer>, d: seq<Peer>, known: map<Key, nat>)
    returns (target: seq<Peer>, knownPeers: map<Key, nat>)
    requires Indexes(known, first)
    ensures target == MergeAll(first, d)
    ensures Indexes(knownPeers, target)
  {
    target, knownPeers := first, known;
    for i := 0 to |d|
      invariant target == MergeAll(first, d[..i])
      invariant Indexes(knownPeers, target)
    {
      Snoc(d, i);
      var key := d[i].publicKey;
      if key in knownPeers {
        var peerIndex := knownPeers[key];
        AppendIndexes(target, peerIndex, d[i].allowedIPs);
        target := target[peerIndex := target[peerIndex].(allowedIPs := target[peerIndex].allowedIPs + d[i].allowedIPs)];
      } else {
        AddIndexes(target, d[i]);
        target := target + [d[i]];
        knownPeers := knownPeers[key := |target| - 1];
      }
    }
    Whole(d);
  }

  method ParseDevice(msgs: seq<Result<Device, string>>) returns (r: Result<Device, string>)
    ensures r.Err? <==> exists i :: 0 <= i < |msgs| && msgs[i].Err?
    ensures forall i :: 0 <= i < |msgs| && msgs[i].Err? && (forall j :: 0 <= j < i ==> msgs[j].Ok?) ==>
              r == Err(msgs[i].error)
    ensures r.Ok? ==> r.value == Reassembled(Values(msgs))
  {
    var first := EMPTY_DEVICE;
    var knownPeers: map<Key, nat> := map[];
    for n := 0 to |msgs|
      invariant forall j :: 0 <= j < n ==> msgs[j].Ok?
      invariant first == Reassembled(Values(msgs[..n]))
      invariant if n == 0 then knownPeers == map[] else Indexes(knownPeers, first.peers)
    {
      if msgs[n].Err? {
        return Err(msgs[n].error);
      }
      var d := msgs[n].value;
      if n == 0 {
        first := d;
        for i := 0 to |first.peers|
          invariant first == d
          invariant Indexes(knownPeers, first.peers[..i])
        {
          Snoc(first.peers, i);
          AddLast(first.peers[..i], first.peers[i]);
          knownPeers := knownPeers[first.peers[i].publicKey := i];
        }
        Whole(first.peers);
        FirstMessage(msgs);
        continue;
      }
      NextMessage(msgs, n);
      var target;
      target, knownPeers := MergeDevices(first.peers, d.peers, knownPeers);
      first := WithPeers(first, target);
    }
    Whole(msgs);
    r := Ok(first);
  }

  /** The devices of the messages that parse, in order. */
  function Values(msgs: seq<Result<Device, string>>): (r: seq<Device>)
  {
    if msgs == [] then []
    else
      var last := msgs[|msgs| - 1];
      Values(msgs[..|msgs| - 1]) + if last.Ok? then [last.value] else []
  }

  // ----- indexes -----

  lemma {:induction false} IndexOfUnique(target: seq<Peer>, k: Key, i: nat)
    requires i < |target| && target[i].publicKey == k
    requires forall j :: i < j < |target| ==> target[j].publicKey != k
    ensures k in PeerKeys(target) && IndexOf(target, k) == i
  {
    assert target[i] in target;
  }

  lemma {:induction false} AddLast(target: seq<Peer>, p: Peer)
    ensures PeerKeys(target + [p]) == PeerKeys(target) + {p.publicKey}
    ensures IndexOf(target + [p], p.publicKey) == |target|
    ensures forall k <- PeerKeys(target) :: k != p.publicKey ==> IndexOf(target + [p], k) == IndexOf(target, k)
  {
    PeerKeysSnoc(target, p);
    forall k | k in PeerKeys(target) && k != p.publicKey
      ensures IndexOf(target + [p], k) == IndexOf(target, k)
    {
      IndexOfUnique(target + [p], k, IndexOf(target, k));
    }
  }

  lemma {:induction false} AddIndexes(target: seq<Peer>, p: Peer)
    requires p.publicKey !in PeerKeys(target)
    ensures PeerKeys(target + [p]) == PeerKeys(target) + {p.publicKey}
    ensures IndexOf(target + [p], p.publicKey) == |target|
    ensures forall k <- PeerKeys(target) :: IndexOf(target + [p], k) == IndexOf(target, k)
  {
    AddLast(target, p);
  }

  lemma {:induction false} AppendIndexes(target: seq<Peer>, i: nat, ips: seq<Cidr>)
    requires i < |target|
    ensures var t := target[i := target[i].(allowedIPs := target[i].allowedIPs + ips)];
            && PeerKeys(t) == PeerKeys(target)
            && forall k <- PeerKeys(t) :: IndexOf(t, k) == IndexOf(target, k)
  {
    var t := target[i := target[i].(allowedIPs := target[i].allowedIPs + ips)];
    forall k | k in PeerKeys(target)
      ensures k in PeerKeys(t) && IndexOf(t, k) == IndexOf(target, k)
    {
      IndexOfUnique(t, k, IndexOf(target, k));
    }
    forall k | k in PeerKeys(t)
      ensures k in PeerKeys(target)
    {
      var j := IndexOf(t, k);
      assert target[j] in target;
    }
  }

  // ----- messages -----

  lemma {:induction false} ValuesOfOk(msgs: seq<Result<Device, string>>)
    requires forall j :: 0 <= j < |msgs| ==> msgs[j].Ok?
    ensures |Values(msgs)| == |msgs|
    ensures forall j :: 0 <= j < |msgs| ==> Values(msgs)[j] == msgs[j].value
  {
    if msgs == [] {
    } else {
      ValuesOfOk(msgs[..|msgs| - 1]);
    }
  }

  lemma {:induction false} FirstMessage(msgs: seq<Result<Device, string>>)
    requires msgs != [] && msgs[0].Ok?
    ensures Reassembled(Values(msgs[..1])) == msgs[0].value
  {
    ValuesOfOk(msgs[..1]);
    assert Values(msgs[..1]) == [msgs[0].value];
    assert Flatten([msgs[0].value][1..]) == [];
  }

  lemma {:induction false} NextMessage(msgs: seq<Result<Device, string>>, n: nat)
    requires 0 < n < |msgs|
    requires forall j :: 0 <= j <= n ==> msgs[j].Ok?
    ensures var before, after := Reassembled(Values(msgs[..n])), Reassembled(Values(msgs[..n + 1]));
            after == WithPeers(before, MergeAll(before.peers, msgs[n].value.peers))
  {
    var vs, ws := Values(msgs[..n]), Values(msgs[..n + 1]);
    Snoc(msgs, n);
    ValuesOfOk(msgs[..n]);
    assert ws == vs + [msgs[n].value];
    assert ws[1..][..|ws[1..]| - 1] == vs[1..];
    MergeAllConcat(vs[0].peers, Flatten(vs[1..]), msgs[n].value.peers);
  }

  lemma {:induction false} MergeAllConcat(target: seq<Peer>, a: seq<Peer>, b: seq<Peer>)
    ensures MergeAll(target, a + b) == MergeAll(MergeAll(target, a), b)
    decreases |b|
  {
    if b == [] {
      assert a + b == a;
    } else {
      assert (a + b)[..|a + b| - 1] == a + b[..|b| - 1];
      MergeAllConcat(target, a, b[..|b| - 1]);
    }
  }
}
