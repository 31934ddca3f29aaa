/** Fixed-size records: fields one behind the other, numbers in little-endian order. */
module Records {
  import opened WgTypes
  import opened Layout

  // ----- numbers -----

  function Pow256(k: nat): nat {
    if k == 0 then 1 else 256 * Pow256(k - 1)
  }

  function PutUint(n: nat, k: nat): (r: seq<byte>)
    ensures |r| == k
  {
    if k == 0 then [] else [n % 256] + PutUint(n / 256, k - 1)
  }

  /** The bytes of `bs` from `i` on, low byte first. */
  function UintFrom(bs: seq<byte>, i: nat): nat
    decreases |bs| - i
  {
    if i >= |bs| then 0 else bs[i] + 256 * UintFrom(bs, i + 1)
  }

  function Uint(bs: seq<byte>): nat {
    UintFrom(bs, 0)
  }

  lemma {:induction false} UintShift(b: byte, bs: seq<byte>, i: nat)
    ensures UintFrom([b] + bs, i + 1) == UintFrom(bs, i)
    decreases |bs| - i
  {
    if i >= |bs| {
    } else {
      UintShift(b, bs, i + 1);
    }
  }

  lemma {:induction false} UintOfPut(n: nat, k: nat)
    requires n < Pow256(k)
    ensures Uint(PutUint(n, k)) == n
  {
    if k == 0 {
    } else {
      UintOfPut(n / 256, k - 1);
      UintShift(n % 256, PutUint(n / 256, k - 1), 0);
    }
  }

  /** A two's complement reading of an unsigned number of `k` bytes. */
  function Int(bs: seq<byte>): int {
    var n := Uint(bs);
    if 2 * n < Pow256(|bs|) then n else n - Pow256(|bs|)
  }

  function Zeros(k: nat): (r: seq<byte>)
    ensures |r| == k
  {
    seq(k, _ => 0)
  }

  // ----- flags -----

  /** Whether the single-bit flag `bit` is set in `flags`. */
  predicate Has(flags: nat, bit: nat)
    requires bit > 0
  {
    flags / bit % 2 == 1
  }

  /** A flag, or nothing: flags are distinct bits, each set at most once, so setting one adds it. */
  function Bit(set_: bool, bit: nat): nat {
    if set_ then bit else 0
  }

  /** The binary digits of a number below 32. */
  lemma {:induction false} FiveDigits(a: nat, b: nat, c: nat, d: nat, e: nat, f: nat)
    requires a <= 1 && b <= 1 && c <= 1 && d <= 1 && e <= 1 && f == a + 2 * b + 4 * c + 8 * d + 16 * e
    ensures f / 1 % 2 == a && f / 2 % 2 == b && f / 4 % 2 == c && f / 8 % 2 == d && f / 16 % 2 == e
  {
  }

  // ----- fields -----

  function Before(fields: seq<seq<byte>>, k: nat): nat
    requires k <= |fields|
  {
    if k == 0 then 0 else Before(fields, k - 1) + |fields[k - 1]|
  }

  lemma {:induction false} BeforePrefix(fields: seq<seq<byte>>, k: nat)
    requires k < |fields|
    ensures Before(fields[..|fields| - 1], k) == Before(fields, k)
  {
    if k == 0 {
    } else {
      BeforePrefix(fields, k - 1);
    }
  }

  lemma {:induction false} RecordLength(fields: seq<seq<byte>>)
    ensures |Join(fields)| == Before(fields, |fields|)
  {
    if fields == [] {
    } else {
      RecordLength(fields[..|fields| - 1]);
      BeforePrefix(fields, |fields| - 1);
    }
  }

  /** Field `k` of a record lies behind the fields before it. */
  lemma {:induction false} FieldAt(fields: seq<seq<byte>>, k: nat)
    requires k < |fields|
    ensures Holds(Join(fields), Before(fields, k), fields[k])
  {
    var init, last := fields[..|fields| - 1], fields[|fields| - 1];
    BeforePrefix(fields, k);
    if k == |init| {
      RecordLength(init);
      HoldsSuffix(Join(init), last, 0, last);
    } else {
      FieldAt(init, k);
      HoldsPrefix(Join(init), last, Before(fields, k), fields[k]);
    }
  }

  /** Reading `field` back from its offset. */
  lemma {:induction false} ReadField(fields: seq<seq<byte>>, k: nat, at: nat)
    requires k < |fields| && at == Before(fields, k)
    ensures at + |fields[k]| <= |Join(fields)|
    ensures Join(fields)[at..at + |fields[k]|] == fields[k]
  {
    FieldAt(fields, k);
    HeldSlice(Join(fields), at, fields[k]);
  }

  lemma {:induction false} Powers()
    ensures Pow256(1) == 0x100 && Pow256(2) == 0x1_0000 && Pow256(4) == 0x1_0000_0000
    ensures Pow256(8) == 0x1_0000_0000_0000_0000
  {
    assert Pow256(3) == 0x100_0000;
    assert Pow256(4) == 0x1_0000_0000;
    assert Pow256(5) == 0x100_0000_0000;
    assert Pow256(6) == 0x1_0000_0000_0000;
    assert Pow256(7) == 0x100_0000_0000_0000;
  }

  /** A number put at field `k` reads back. */
  lemma {:induction false} ReadNumber(fields: seq<seq<byte>>, k: nat, at: nat, n: nat, width: nat)
    requires k < |fields| && at == Before(fields, k) && fields[k] == PutUint(n, width) && n < Pow256(width)
    ensures at + width <= |Join(fields)|
    ensures Uint(Join(fields)[at..at + width]) == n
  {
    UintOfPut(n, width);
    var bytes := PutUint(n, width);
    ReadField(fields, k, at);
    assert Join(fields)[at..at + width] == bytes;
  }
}
