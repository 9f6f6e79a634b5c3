/** What several components share: optional values and a little arithmetic. */
module Common {

  datatype Option<+T> = None | Some(value: T)

  type Byte = b: nat | b < 256

  ghost predicate NoDup(l: seq<nat>) {
    forall i, j :: 0 <= i < j < |l| ==> l[i] != l[j]
  }

  function Pow2(n: nat): (r: nat)
    ensures r >= 1
  {
    if n == 0 then 1 else 2 * Pow2(n - 1)
  }

  lemma {:induction false} Pow2Adds(a: nat, b: nat)
    ensures Pow2(a + b) == Pow2(a) * Pow2(b)
  {
    if a > 0 {
      Pow2Adds(a - 1, b);
      Doubles(Pow2(a - 1), Pow2(b));
    }
  }

  lemma Doubles(a: nat, b: nat)
    ensures 2 * (a * b) == (2 * a) * b
  {}

  lemma {:induction false} Pow2Mono(i: nat, n: nat)
    requires i < n
    ensures 2 * Pow2(i) <= Pow2(n)
    decreases n
  {
    if i + 1 < n { Pow2Mono(i, n - 1); }
  }

  /** Quotient and remainder are the only ones. */
  lemma DivIs(x: nat, n: nat, k: nat, r: nat)
    requires n > 0 && r < n && x == k * n + r
    ensures x / n == k && x % n == r
  {
    var d := x / n - k;
    assert x == (x / n) * n + x % n;
    assert d * n == r - x % n;
    if d >= 1 { AtLeast(d, n); }
    if d <= -1 { AtLeast(-d, n); }
  }

  lemma AtLeast(d: int, n: int)
    requires d >= 1 && n >= 0
    ensures d * n >= n && (-d) * n <= -n
  {
    assert d * n == n + (d - 1) * n;
  }
}
