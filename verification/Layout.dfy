/**
 * A count-prefixed, nested buffer: one interface record, then for each peer its record
 * followed by its allowed-IP records. Where each record lies depends only on the three
 * record sizes and the counts, so one set of lemmas serves both kernels that use it.
 */
module Layout {
  import opened WgTypes

  /** A peer record and the allowed-IP records behind it, as raw bytes. */
  datatype Group = Group(peer: seq<byte>, nets: seq<seq<byte>>)

  datatype Sizes = Sizes(interface_: nat, peer: nat, net: nat)

  function Join(parts: seq<seq<byte>>): seq<byte>
  {
    if parts == [] then [] else Join(parts[..|parts| - 1]) + parts[|parts| - 1]
  }

  function GroupBytes(g: Group): seq<byte> {
    g.peer + Join(g.nets)
  }

  function GroupsBytes(gs: seq<Group>): seq<byte>
  {
    if gs == [] then [] else GroupsBytes(gs[..|gs| - 1]) + GroupBytes(gs[|gs| - 1])
  }

  /** The whole buffer. */
  function Bytes(interface_: seq<byte>, gs: seq<Group>): seq<byte> {
    interface_ + GroupsBytes(gs)
  }

  ghost predicate Sized(interface_: seq<byte>, gs: seq<Group>, z: Sizes) {
    && |interface_| == z.interface_
    && forall i :: 0 <= i < |gs| ==> SizedGroup(gs[i], z)
  }

  ghost predicate SizedGroup(g: Group, z: Sizes) {
    && |g.peer| == z.peer
    && forall j :: 0 <= j < |g.nets| ==> |g.nets[j]| == z.net
  }

  // ----- offsets -----

  /** `n` allowed-IP records take this many bytes. */
  function Span(n: nat, z: Sizes): nat
  {
    if n == 0 then 0 else Span(n - 1, z) + z.net
  }

  function GroupSize(g: Group, z: Sizes): nat {
    z.peer + Span(|g.nets|, z)
  }

  /** The offset of peer record `i`; at |gs|, the length of the buffer. */
  function PeerAt(gs: seq<Group>, z: Sizes, i: nat): nat
    requires i <= |gs|
  {
    if i == 0 then z.interface_ else PeerAt(gs, z, i - 1) + GroupSize(gs[i - 1], z)
  }

  /** The offset of allowed-IP record `j` of peer `i`. */
  function NetAt(gs: seq<Group>, z: Sizes, i: nat, j: nat): nat
    requires i < |gs| && j <= |gs[i].nets|
  {
    PeerAt(gs, z, i) + z.peer + Span(j, z)
  }

  lemma {:induction false} SpanIsProduct(n: nat, z: Sizes)
    ensures Span(n, z) == n * z.net
  {
    if n == 0 {
    } else {
      SpanIsProduct(n - 1, z);
      assert n * z.net == (n - 1) * z.net + z.net;
    }
  }

  lemma {:induction false} SpanMonotone(m: nat, n: nat, z: Sizes)
    requires m <= n
    ensures Span(m, z) <= Span(n, z)
  {
    if m < n {
      SpanMonotone(m, n - 1, z);
    }
  }

  lemma {:induction false} JoinLength(parts: seq<seq<byte>>, z: Sizes)
    requires forall j :: 0 <= j < |parts| ==> |parts[j]| == z.net
    ensures |Join(parts)| == Span(|parts|, z)
  {
    if parts == [] {
    } else {
      JoinLength(parts[..|parts| - 1], z);
    }
  }

  lemma {:induction false} PeerAtPrefix(gs: seq<Group>, z: Sizes, i: nat)
    requires i < |gs|
    ensures PeerAt(gs[..|gs| - 1], z, i) == PeerAt(gs, z, i)
  {
    if i == 0 {
    } else {
      PeerAtPrefix(gs, z, i - 1);
    }
  }

  /** The buffer ends where the walk over all peers ends. */
  lemma {:induction false} BufferLength(interface_: seq<byte>, gs: seq<Group>, z: Sizes)
    requires Sized(interface_, gs, z)
    ensures |Bytes(interface_, gs)| == PeerAt(gs, z, |gs|)
  {
    if gs == [] {
    } else {
      var init, g := gs[..|gs| - 1], gs[|gs| - 1];
      BufferLength(interface_, init, z);
      JoinLength(g.nets, z);
      PeerAtPrefix(gs, z, |init|);
    }
  }

  lemma {:induction false} PeerAtMonotone(gs: seq<Group>, z: Sizes, i: nat, n: nat)
    requires i < n <= |gs|
    ensures PeerAt(gs, z, i) + GroupSize(gs[i], z) <= PeerAt(gs, z, n)
  {
    if i < n - 1 {
      PeerAtMonotone(gs, z, i, n - 1);
    }
  }

  // ----- records -----

  /** `part` lies in `buf` at offset `at`. */
  ghost predicate Holds(buf: seq<byte>, at: nat, part: seq<byte>) {
    at + |part| <= |buf| && forall i :: 0 <= i < |part| ==> buf[at + i] == part[i]
  }

  lemma {:induction false} HoldsPrefix(a: seq<byte>, b: seq<byte>, at: nat, part: seq<byte>)
    requires Holds(a, at, part)
    ensures Holds(a + b, at, part)
  {
  }

  lemma {:induction false} HoldsSuffix(a: seq<byte>, b: seq<byte>, at: nat, part: seq<byte>)
    requires Holds(b, at, part)
    ensures Holds(a + b, |a| + at, part)
  {
    forall i | 0 <= i < |part|
      ensures (a + b)[|a| + at + i] == part[i]
    {
      assert (a + b)[|a| + (at + i)] == b[at + i];
    }
  }

  lemma {:induction false} HoldsWithin(buf: seq<byte>, lo: nat, whole: seq<byte>, at: nat, part: seq<byte>)
    requires Holds(buf, lo, whole) && Holds(whole, at, part)
    ensures Holds(buf, lo + at, part)
  {
    forall i | 0 <= i < |part|
      ensures buf[lo + at + i] == part[i]
    {
      assert buf[lo + (at + i)] == whole[at + i];
    }
  }

  lemma {:induction false} HeldSlice(buf: seq<byte>, at: nat, part: seq<byte>)
    requires Holds(buf, at, part)
    ensures buf[at..at + |part|] == part
  {
  }

  lemma {:induction false} PartAt(parts: seq<seq<byte>>, z: Sizes, j: nat)
    requires forall i :: 0 <= i < |parts| ==> |parts[i]| == z.net
    requires j < |parts|
    ensures Holds(Join(parts), Span(j, z), parts[j])
  {
    var init, last := parts[..|parts| - 1], parts[|parts| - 1];
    if j == |init| {
      JoinLength(init, z);
      HoldsSuffix(Join(init), last, 0, last);
    } else {
      PartAt(init, z, j);
      HoldsPrefix(Join(init), last, Span(j, z), parts[j]);
    }
  }

  lemma {:induction false} OneMoreGroup(interface_: seq<byte>, gs: seq<Group>, z: Sizes)
    requires Sized(interface_, gs, z) && gs != []
    ensures Sized(interface_, gs[..|gs| - 1], z)
    ensures Bytes(interface_, gs) == Bytes(interface_, gs[..|gs| - 1]) + GroupBytes(gs[|gs| - 1])
  {
    hide GroupBytes, SizedGroup;
  }

  lemma {:induction false} GroupAt(interface_: seq<byte>, gs: seq<Group>, z: Sizes, i: nat)
    requires Sized(interface_, gs, z) && i < |gs|
    ensures Holds(Bytes(interface_, gs), PeerAt(gs, z, i), GroupBytes(gs[i]))
  {
    hide GroupBytes, Holds, Bytes, Sized, PeerAt;
    var init, g := gs[..|gs| - 1], gs[|gs| - 1];
    var buf := Bytes(interface_, init);
    OneMoreGroup(interface_, gs, z);
    PeerAtPrefix(gs, z, i);
    if i < |init| {
      GroupAt(interface_, init, z, i);
      HoldsPrefix(buf, GroupBytes(g), PeerAt(gs, z, i), GroupBytes(gs[i]));
    } else {
      BufferLength(interface_, init, z);
      HoldsSuffix(buf, GroupBytes(g), 0, GroupBytes(g));
    }
  }

  /** The peer record found at its offset is the one laid out, and lies inside the buffer. */
  lemma {:induction false} PeerRecordAt(interface_: seq<byte>, gs: seq<Group>, z: Sizes, i: nat)
    requires Sized(interface_, gs, z) && i < |gs|
    ensures Holds(Bytes(interface_, gs), PeerAt(gs, z, i), gs[i].peer)
  {
    GroupAt(interface_, gs, z, i);
    HoldsPrefix(gs[i].peer, Join(gs[i].nets), 0, gs[i].peer);
    HoldsWithin(Bytes(interface_, gs), PeerAt(gs, z, i), GroupBytes(gs[i]), 0, gs[i].peer);
  }

  /** So is each allowed-IP record. */
  lemma {:induction false} NetRecordAt(interface_: seq<byte>, gs: seq<Group>, z: Sizes, i: nat, j: nat)
    requires Sized(interface_, gs, z) && i < |gs| && j < |gs[i].nets|
    ensures Holds(Bytes(interface_, gs), NetAt(gs, z, i, j), gs[i].nets[j])
  {
    var g := gs[i];
    GroupAt(interface_, gs, z, i);
    PartAt(g.nets, z, j);
    HoldsSuffix(g.peer, Join(g.nets), Span(j, z), g.nets[j]);
    HoldsWithin(Bytes(interface_, gs), PeerAt(gs, z, i), GroupBytes(g), z.peer + Span(j, z), g.nets[j]);
  }

  /** Records do not overlap: each lies behind the one before it and ends before the next peer. */
  lemma {:induction false} RecordsInOrder(gs: seq<Group>, z: Sizes, i: nat, j: nat)
    requires i < |gs| && j < |gs[i].nets|
    ensures NetAt(gs, z, i, 0) == PeerAt(gs, z, i) + z.peer
    ensures NetAt(gs, z, i, j + 1) == NetAt(gs, z, i, j) + z.net
    ensures NetAt(gs, z, i, |gs[i].nets|) == PeerAt(gs, z, i + 1)
    ensures NetAt(gs, z, i, j) + z.net <= PeerAt(gs, z, i + 1)
  {
    SpanMonotone(j + 1, |gs[i].nets|, z);
  }

  lemma {:induction false} InterfaceAt(interface_: seq<byte>, gs: seq<Group>, z: Sizes)
    requires Sized(interface_, gs, z)
    ensures Holds(Bytes(interface_, gs), 0, interface_)
  {
    HoldsPrefix(interface_, GroupsBytes(gs), 0, interface_);
  }
}
