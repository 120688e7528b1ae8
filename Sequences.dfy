/** Sequence helpers shared by the decision-sequence proofs. */
module Sequences {

  function Repeat<T>(x: T, n: nat): (r: seq<T>)
    ensures |r| == n && forall i | 0 <= i < n :: r[i] == x
  {
    if n == 0 then [] else [x] + Repeat(x, n - 1)
  }

  function CountTrue(s: seq<bool>): (n: nat)
    ensures n <= |s|
  {
    if s == [] then 0 else (if s[0] then 1 else 0) + CountTrue(s[1..])
  }

  lemma {:induction false} CountTrueAppend(a: seq<bool>, b: seq<bool>)
    ensures CountTrue(a + b) == CountTrue(a) + CountTrue(b)
  {
    if a != [] {
      assert (a + b)[1..] == a[1..] + b;
      CountTrueAppend(a[1..], b);
    } else {
      assert a + b == b;
    }
  }

  lemma {:induction false} CountTrueRepeat(x: bool, n: nat)
    ensures CountTrue(Repeat(x, n)) == if x then n else 0
  {
    if n > 0 {
      assert Repeat(x, n)[1..] == Repeat(x, n - 1);
      CountTrueRepeat(x, n - 1);
    }
  }

  /** Call times as a clock that never runs backwards produces them. */
  predicate NonDecreasing(s: seq<int>)
  {
    forall i, j | 0 <= i <= j < |s| :: s[i] <= s[j]
  }

  /** Dropping the first element keeps a sequence in order. */
  lemma NonDecreasingTail(s: seq<int>)
    requires NonDecreasing(s) && s != []
    ensures NonDecreasing(s[1..])
  {
    forall i, j | 0 <= i <= j < |s| - 1
      ensures s[1..][i] <= s[1..][j]
    {
      assert s[1..][i] == s[i + 1] && s[1..][j] == s[j + 1];
    }
  }
}
