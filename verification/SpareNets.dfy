/** However many operations a configuration has, they leave some network unnamed. */
module SpareNets {
  import opened WgTypes
  import opened DeviceModel
  import opened Records
  import opened Batches

  // ----- masks of full length -----

  function Pow2(j: nat): nat {
    if j == 0 then 1 else 2 * Pow2(j - 1)
  }

  lemma {:induction false} KeepAll(b: nat, j: nat, keep: int)
    requires b < 2 * Pow2(j) && keep > j
    ensures KeepBits(b, Pow2(j), keep) == b
  {
    if j == 0 {
      assert KeepBits(0, 0, keep - 1) == 0;
    } else {
      var w := Pow2(j);
      KeepAll(if b >= w then b - w else b, j - 1, keep - 1);
    }
  }

  /** A mask of full length changes nothing. */
  lemma {:induction false} FullMask(a: Bytes16)
    ensures IsMasked(Cidr6(a, 128))
  {
    assert Pow2(3) == 8 && Pow2(7) == 128;
    forall i | 0 <= i < 16
      ensures MaskBytes(a, 128)[i] == a[i]
    {
      KeepAll(a[i], 7, 128 - 8 * i);
    }
  }

  // ----- counting -----

  function HostNet(n: nat): Cidr {
    Cidr6(PutUint(n, 16), 128)
  }

  /** The first `n` hosts. */
  ghost function FirstHosts(n: nat): set<Cidr> {
    if n == 0 then {} else FirstHosts(n - 1) + {HostNet(n - 1)}
  }

  lemma {:induction false} HostFacts(n: nat)
    requires n < Pow256(16)
    ensures HostNet(n).Cidr6? && Uint(HostNet(n).addr6) == n && IsMasked(HostNet(n))
  {
    hide IsMasked, Pow256;
    UintOfPut(n, 16);
    FullMask(PutUint(n, 16));
  }

  lemma {:induction false} HostsDiffer(n: nat)
    requires n <= Pow256(16)
    ensures |FirstHosts(n)| == n
    ensures forall c <- FirstHosts(n) :: c.Cidr6? && Uint(c.addr6) < n && IsMasked(c)
  {
    hide IsMasked, HostNet, Pow256, Uint;
    if n == 0 {
    } else {
      HostsDiffer(n - 1);
      HostFacts(n - 1);
      assert HostNet(n - 1) !in FirstHosts(n - 1);
    }
  }

  /** The networks that operations name. */
  ghost function NamedBy(ops: seq<AllowedIPConfig>): set<Cidr> {
    if ops == [] then {} else NamedBy(ops[..|ops| - 1]) + {Masked(ops[|ops| - 1].net)}
  }

  ghost function NamedIn(ps: seq<PeerConfig>): set<Cidr> {
    if ps == [] then {} else NamedIn(ps[..|ps| - 1]) + NamedBy(Entries(ps[|ps| - 1]))
  }

  lemma {:induction false} NamedByCounts(ops: seq<AllowedIPConfig>)
    ensures |NamedBy(ops)| <= |ops|
    ensures forall c :: Mentions(ops, c) ==> c in NamedBy(ops)
  {
    hide Masked, Mentions;
    if ops == [] {
      NothingMentioned();
    } else {
      var init, op := ops[..|ops| - 1], ops[|ops| - 1];
      NamedByCounts(init);
      assert ops == init + [op];
      forall c: Cidr
        ensures Mentions(ops, c) <==> Mentions(init, c) || Masked(op.net) == c
      {
        MentionsSnoc(init, op, c);
      }
    }
  }

  lemma {:induction false} NothingMentioned()
    ensures forall c :: !Mentions([], c)
  {
  }

  /** A network that no entry names. */
  ghost predicate Unnamed(ps: seq<PeerConfig>, c: Cidr) {
    forall i :: 0 <= i < |ps| ==> !Mentions(Entries(ps[i]), c)
  }

  lemma {:induction false} UnnamedSnoc(ps: seq<PeerConfig>, p: PeerConfig, c: Cidr)
    ensures Unnamed(ps + [p], c) <==> Unnamed(ps, c) && !Mentions(Entries(p), c)
  {
    hide Entries, Mentions;
    var all := ps + [p];
    assert all[|ps|] == p;
    assert forall i :: 0 <= i < |ps| ==> all[i] == ps[i];
  }

  lemma {:induction false} NamedInCounts(ps: seq<PeerConfig>)
    ensures |NamedIn(ps)| <= TotalEntries(ps)
    ensures forall c :: c !in NamedIn(ps) ==> Unnamed(ps, c)
  {
    hide Entries, Mentions, NamedBy;
    if ps == [] {
    } else {
      var init, p := ps[..|ps| - 1], ps[|ps| - 1];
      NamedInCounts(init);
      NamedByCounts(Entries(p));
      EntriesCount(p);
      UnionCounts(NamedIn(init), NamedBy(Entries(p)));
      assert ps == init + [p];
      forall c | c !in NamedIn(ps)
        ensures Unnamed(ps, c)
      {
        UnnamedSnoc(init, p, c);
      }
    }
  }

  lemma {:induction false} UnionCounts(a: set<Cidr>, b: set<Cidr>)
    ensures |a + b| <= |a| + |b|
  {
    assert a + b == a + (b - a);
    SubsetCounts(b - a, b);
  }

  lemma {:induction false} SubsetCounts(a: set<Cidr>, b: set<Cidr>)
    requires a <= b
    ensures |a| <= |b|
  {
    assert b == a + (b - a);
  }

  /** Fewer operations than there are IPv6 addresses leave one of them unnamed. */
  lemma {:induction false} SpareNet(ps: seq<PeerConfig>) returns (c: Cidr)
    requires TotalEntries(ps) < Pow256(16)
    ensures Unnamed(ps, c) && IsMasked(c)
  {
    hide Unnamed, NamedIn, FirstHosts, IsMasked;
    var n := TotalEntries(ps) + 1;
    NamedInCounts(ps);
    HostsDiffer(n);
    if FirstHosts(n) <= NamedIn(ps) {
      SubsetCounts(FirstHosts(n), NamedIn(ps));
      assert false;
    }
    c :| c in FirstHosts(n) && c !in NamedIn(ps);
  }
}
