/** Stock operations on sequences and facts about them. */
module Seqs {
  /** One element, or none. */
  function When<T>(condition: bool, x: T): (r: seq<T>)
    ensures |r| <= 1
  {
    if condition then [x] else []
  }

  lemma {:induction false} Snoc<T>(s: seq<T>, n: nat)
    requires n < |s|
    ensures s[..n + 1] == s[..n] + [s[n]]
    ensures |s[..n + 1]| == n + 1 && s[..n + 1][..n] == s[..n] && s[..n + 1][n] == s[n]
  {
  }

  lemma {:induction false} Whole<T>(s: seq<T>)
    ensures s[..|s|] == s
  {
  }

  lemma {:induction false} Regroup<T>(a: seq<T>, x: T, b: seq<T>)
    ensures a + ([x] + b) == (a + [x]) + b
  {
  }

  lemma {:induction false} Assoc<T>(a: seq<T>, b: seq<T>, c: seq<T>)
    ensures (a + b) + c == a + (b + c) && a + [] == a
  {
  }

  /** A prefix is not changed by what follows. */
  lemma {:induction false} TakeOf<T>(a: seq<T>, b: seq<T>, n: nat)
    requires n <= |a|
    ensures (a + b)[..n] == a[..n]
  {
  }

  lemma {:induction false} TakeTake<T>(a: seq<T>, m: nat, n: nat)
    requires n <= m <= |a|
    ensures a[..m][..n] == a[..n]
  {
  }
}
