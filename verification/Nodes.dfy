/** Merging the nodes of a shared gist with the local ones: cmd/wg/syncgitee_linux.go. */
module Nodes {
  import opened Wrappers
  import opened WgTypes
  import opened Seqs

  datatype Node = Node(
    name: string, publicKey: Key, privateKey: Option<Key>, presharedKey: Key,
    allowedIPs: seq<Cidr>, endpoint: Option<UDPAddr>, keepalive: int)

  function KeysOf(nodes: seq<Node>): (keys: seq<Key>)
    ensures |keys| == |nodes|
  {
    if nodes == [] then [] else KeysOf(nodes[..|nodes| - 1]) + [nodes[|nodes| - 1].publicKey]
  }

  /** The last position of `k`. */
  function LastIndex(keys: seq<Key>, k: Key): (i: nat)
    requires k in keys
    ensures i < |keys| && keys[i] == k
    ensures forall j :: i < j < |keys| ==> keys[j] != k
  {
    if keys[|keys| - 1] == k then |keys| - 1 else LastIndex(keys[..|keys| - 1], k)
  }

  // ----- what a merge gives -----

  /** Keys that are new, in the order they first appear. */
  function NewKeys(known: seq<Key>, keys: seq<Key>): seq<Key>
  {
    if keys == [] then []
    else
      var init, k := NewKeys(known, keys[..|keys| - 1]), keys[|keys| - 1];
      if k in known || k in init then init else init + [k]
  }

  /** The last node with the key `k`. */
  function LastNode(nodes: seq<Node>, k: Key): (n: Option<Node>)
    ensures n.Some? ==> n.value.publicKey == k
  {
    if nodes == [] then None
    else if nodes[|nodes| - 1].publicKey == k then Some(nodes[|nodes| - 1])
    else LastNode(nodes[..|nodes| - 1], k)
  }

  /** The node that position `i` of the merged list, whose keys are `keys`, should hold. */
  function NodeAt(remote: seq<Node>, local: seq<Node>, keys: seq<Key>, i: nat): Option<Node>
    requires i < |keys|
  {
    if i == LastIndex(keys, keys[i]) && LastNode(local, keys[i]).Some? then LastNode(local, keys[i])
    else if i < |remote| then Some(remote[i])
    else None
  }

  /** A list with these keys and these nodes, which is the merged one. */
  ghost predicate IsMerge(merged: seq<Node>, remote: seq<Node>, local: seq<Node>) {
    var keys := KeysOf(merged);
    && keys == KeysOf(remote) + NewKeys(KeysOf(remote), KeysOf(local))
    && forall i :: 0 <= i < |merged| ==> NodeAt(remote, local, keys, i) == Some(merged[i])
  }

  lemma {:induction false} KeysAt(nodes: seq<Node>, i: nat)
    requires i < |nodes|
    ensures KeysOf(nodes)[i] == nodes[i].publicKey
  {
    if i == |nodes| - 1 {
    } else {
      KeysAt(nodes[..|nodes| - 1], i);
    }
  }

  lemma {:induction false} KeysSnoc(nodes: seq<Node>, n: Node)
    ensures KeysOf(nodes + [n]) == KeysOf(nodes) + [n.publicKey]
  {
    assert (nodes + [n])[..|nodes|] == nodes;
  }

  lemma {:induction false} LocalSnoc(known: seq<Key>, local: seq<Node>, n: Node)
    ensures NewKeys(known, KeysOf(local + [n])) ==
            if n.publicKey in known || n.publicKey in NewKeys(known, KeysOf(local)) then NewKeys(known, KeysOf(local))
            else NewKeys(known, KeysOf(local)) + [n.publicKey]
    ensures forall k :: LastNode(local + [n], k) == if n.publicKey == k then Some(n) else LastNode(local, k)
  {
    KeysSnoc(local, n);
    assert (local + [n])[..|local|] == local;
    assert (KeysOf(local) + [n.publicKey])[..|local|] == KeysOf(local);
  }

  // ----- one node at a time -----

  /** The keys of a list with one node replaced by one of the same key. */
  lemma {:induction false} KeysReplaced(nodes: seq<Node>, i: nat, n: Node)
    requires i < |nodes| && nodes[i].publicKey == n.publicKey
    ensures KeysOf(nodes[i := n]) == KeysOf(nodes)
  {
    forall j | 0 <= j < |nodes|
      ensures KeysOf(nodes[i := n])[j] == KeysOf(nodes)[j]
    {
      KeysAt(nodes, j);
      KeysAt(nodes[i := n], j);
    }
  }

  /** The key is not a new one, so the keys of the merge stay what they are. */
  lemma {:induction false} KnownKey(merged: seq<Node>, remote: seq<Node>, local: seq<Node>, n: Node)
    requires IsMerge(merged, remote, local) && n.publicKey in KeysOf(merged)
    ensures NewKeys(KeysOf(remote), KeysOf(local + [n])) == NewKeys(KeysOf(remote), KeysOf(local))
  {
    hide NodeAt, LastNode;
    LocalSnoc(KeysOf(remote), local, n);
  }

  lemma {:induction false} ReplacedAt(remote: seq<Node>, local: seq<Node>, n: Node, keys: seq<Key>, i: nat)
    requires i < |keys| && n.publicKey in keys
    ensures NodeAt(remote, local + [n], keys, i) ==
            if i == LastIndex(keys, n.publicKey) then Some(n) else NodeAt(remote, local, keys, i)
  {
    hide LastNode;
    LocalSnoc([], local, n);
  }

  lemma {:induction false} MergeReplaces(merged: seq<Node>, remote: seq<Node>, local: seq<Node>, n: Node)
    requires IsMerge(merged, remote, local) && n.publicKey in KeysOf(merged)
    ensures IsMerge(merged[LastIndex(KeysOf(merged), n.publicKey) := n], remote, local + [n])
  {
    hide LastIndex, LastNode, NodeAt, NewKeys;
    var keys := KeysOf(merged);
    var i := LastIndex(keys, n.publicKey);
    KeysAt(merged, i);
    KeysReplaced(merged, i, n);
    KnownKey(merged, remote, local, n);
    forall j | 0 <= j < |merged|
      ensures NodeAt(remote, local + [n], keys, j) == Some(merged[i := n][j])
    {
      ReplacedAt(remote, local, n, keys, j);
    }
  }

  lemma {:induction false} LastIndexSnoc(keys: seq<Key>, k: Key, other: Key)
    requires other in keys + [k]
    ensures LastIndex(keys + [k], other) == if other == k then |keys| else LastIndex(keys, other)
  {
    assert (keys + [k])[..|keys|] == keys;
  }

  lemma {:induction false} MergeAppends(merged: seq<Node>, remote: seq<Node>, local: seq<Node>, n: Node)
    requires IsMerge(merged, remote, local) && n.publicKey !in KeysOf(merged)
    ensures IsMerge(merged + [n], remote, local + [n])
  {
    hide LastIndex, LastNode, NewKeys, KeysOf;
    var keys := KeysOf(merged);
    KeysSnoc(merged, n);
    LocalSnoc(KeysOf(remote), local, n);
    assert n.publicKey !in KeysOf(remote) && n.publicKey !in NewKeys(KeysOf(remote), KeysOf(local));
    Assoc(KeysOf(remote), NewKeys(KeysOf(remote), KeysOf(local)), [n.publicKey]);
    forall i | 0 <= i < |merged| + 1
      ensures NodeAt(remote, local + [n], keys + [n.publicKey], i) == Some((merged + [n])[i])
    {
      LastIndexSnoc(keys, n.publicKey, (keys + [n.publicKey])[i]);
      if i < |merged| {
        assert keys[i] in keys;
      }
    }
  }

  // ----- the merge -----

  ghost predicate Indexes(indexes: map<Key, nat>, keys: seq<Key>) {
    && (forall k :: k in indexes <==> k in keys)
    && forall k <- indexes :: k in keys && indexes[k] == LastIndex(keys, k)
  }

  lemma {:induction false} IndexesSnoc(indexes: map<Key, nat>, keys: seq<Key>, k: Key)
    requires Indexes(indexes, keys)
    ensures Indexes(indexes[k := |keys|], keys + [k])
  {
    forall other | other in keys + [k]
      ensures LastIndex(keys + [k], other) == if other == k then |keys| else LastIndex(keys, other)
    {
      LastIndexSnoc(keys, k, other);
    }
  }

  lemma {:induction false} NothingMerged(remote: seq<Node>)
    ensures IsMerge(remote, remote, [])
  {
    Assoc(KeysOf(remote), [], []);
  }

  method Merge(remote: seq<Node>, local: seq<Node>) returns (merged: seq<Node>)
    ensures IsMerge(merged, remote, local)
  {
    hide IsMerge, LastIndex;
    merged := remote;
    var indexes: map<Key, nat> := map[];
    assert remote[..0] == [] && local[..0] == [];
    for i := 0 to |merged|
      invariant merged == remote && Indexes(indexes, KeysOf(remote[..i]))
    {
      Snoc(remote, i);
      IndexesSnoc(indexes, KeysOf(remote[..i]), remote[i].publicKey);
      indexes := indexes[merged[i].publicKey := i];
    }
    Whole(remote);
    NothingMerged(remote);
    for j := 0 to |local|
      invariant IsMerge(merged, remote, local[..j]) && Indexes(indexes, KeysOf(merged))
    {
      Snoc(local, j);
      var node := local[j];
      if node.publicKey in indexes {
        var i := indexes[node.publicKey];
        MergeReplaces(merged, remote, local[..j], node);
        KeysAt(merged, LastIndex(KeysOf(merged), node.publicKey));
        KeysReplaced(merged, i, node);
        merged := merged[i := node];
        continue;
      }
      MergeAppends(merged, remote, local[..j], node);
      IndexesSnoc(indexes, KeysOf(merged), node.publicKey);
      KeysSnoc(merged, node);
      indexes := indexes[node.publicKey := |merged|];
      merged := merged + [node];
    }
    Whole(local);
  }

  // ----- laws -----

  ghost predicate Unique(keys: seq<Key>) {
    forall i, j :: 0 <= i < j < |keys| ==> keys[i] != keys[j]
  }

  lemma {:induction false} NewKeysUnique(known: seq<Key>, keys: seq<Key>)
    ensures Unique(NewKeys(known, keys))
    ensures forall k <- NewKeys(known, keys) :: k !in known
    ensures forall k <- keys :: k in known || k in NewKeys(known, keys)
  {
    if keys == [] {
    } else {
      NewKeysUnique(known, keys[..|keys| - 1]);
      assert keys == keys[..|keys| - 1] + [keys[|keys| - 1]];
    }
  }

  lemma {:induction false} LocalKnown(local: seq<Node>, k: Key)
    ensures LastNode(local, k).Some? <==> k in KeysOf(local)
  {
    if local == [] {
    } else {
      LocalKnown(local[..|local| - 1], k);
    }
  }

  lemma {:induction false} UniqueConcat(a: seq<Key>, b: seq<Key>)
    requires Unique(a) && Unique(b) && forall k <- b :: k !in a
    ensures Unique(a + b)
  {
    forall i, j | 0 <= i < j < |a + b|
      ensures (a + b)[i] != (a + b)[j]
    {
      if i < |a| <= j {
        assert b[j - |a|] in b;
      }
    }
  }

  /** With unique remote keys, the merged keys are unique. */
  lemma {:induction false} MergeKeepsUnique(merged: seq<Node>, remote: seq<Node>, local: seq<Node>)
    requires IsMerge(merged, remote, local) && Unique(KeysOf(remote))
    ensures Unique(KeysOf(merged))
  {
    hide LastNode, NodeAt, Unique;
    NewKeysUnique(KeysOf(remote), KeysOf(local));
    UniqueConcat(KeysOf(remote), NewKeys(KeysOf(remote), KeysOf(local)));
  }

  /** A remote node without a local one of its key stays where it is. */
  lemma {:induction false} RemoteStays(merged: seq<Node>, remote: seq<Node>, local: seq<Node>, i: nat)
    requires IsMerge(merged, remote, local) && i < |remote| && remote[i].publicKey !in KeysOf(local)
    ensures i < |merged| && merged[i] == remote[i]
  {
    hide LastNode, NodeAt;
    LocalKnown(local, remote[i].publicKey);
    KeysAt(remote, i);
    Unreplaced(remote, local, KeysOf(merged), i);
  }

  lemma {:induction false} Unreplaced(remote: seq<Node>, local: seq<Node>, keys: seq<Key>, i: nat)
    requires i < |keys| && i < |remote| && LastNode(local, keys[i]).None?
    ensures NodeAt(remote, local, keys, i) == Some(remote[i])
  {
    hide LastNode, LastIndex;
  }

  /** Each local key ends with its last local node. */
  lemma {:induction false} LocalWins(merged: seq<Node>, remote: seq<Node>, local: seq<Node>, k: Key)
    requires IsMerge(merged, remote, local) && k in KeysOf(local)
    ensures k in KeysOf(merged) && LastNode(local, k) == Some(merged[LastIndex(KeysOf(merged), k)])
  {
    hide LastNode;
    NewKeysUnique(KeysOf(remote), KeysOf(local));
    LocalKnown(local, k);
    var i := LastIndex(KeysOf(merged), k);
    assert NodeAt(remote, local, KeysOf(merged), i) == Some(merged[i]);
  }

  lemma {:induction false} NoNewKeys(known: seq<Key>, keys: seq<Key>)
    requires forall k <- keys :: k in known
    ensures NewKeys(known, keys) == []
  {
    NewKeysUnique(known, keys);
    if NewKeys(known, keys) != [] {
      NewKeysOld(known, keys, NewKeys(known, keys)[0]);
    }
  }

  lemma {:induction false} NewKeysOld(known: seq<Key>, keys: seq<Key>, k: Key)
    requires k in NewKeys(known, keys)
    ensures k in keys
  {
    var init := keys[..|keys| - 1];
    if k in NewKeys(known, init) {
      NewKeysOld(known, init, k);
    }
  }

  /** There is only one merge. */
  lemma {:induction false} MergeDetermined(a: seq<Node>, b: seq<Node>, remote: seq<Node>, local: seq<Node>)
    requires IsMerge(a, remote, local) && IsMerge(b, remote, local)
    ensures a == b
  {
    hide LastNode, LastIndex, NodeAt;
  }

  /** Merging the same local nodes once more changes nothing. */
  lemma {:induction false} MergeIdempotent(merged: seq<Node>, again: seq<Node>, remote: seq<Node>, local: seq<Node>)
    requires IsMerge(merged, remote, local) && IsMerge(again, merged, local)
    ensures again == merged
  {
    hide LastNode, LastIndex, NodeAt;
    NewKeysUnique(KeysOf(remote), KeysOf(local));
    NoNewKeys(KeysOf(merged), KeysOf(local));
    Assoc(KeysOf(merged), [], []);
    assert |again| == |merged|;
    forall i | 0 <= i < |merged|
      ensures again[i] == merged[i]
    {
      SameNode(merged, remote, local, KeysOf(merged), i);
    }
  }

  lemma {:induction false} SameNode(merged: seq<Node>, remote: seq<Node>, local: seq<Node>, keys: seq<Key>, i: nat)
    requires i < |keys| == |merged| && NodeAt(remote, local, keys, i) == Some(merged[i])
    ensures NodeAt(merged, local, keys, i) == Some(merged[i])
  {
    hide LastNode, LastIndex;
  }
}
