/** Small facts about multiplication, floor division and remainders by a variable
    divisor, which the solver does not find unaided. */
module Arith {

  lemma Distrib(k: nat, f: nat)
    ensures (k + 1) * f == k * f + f
  {
  }

  lemma MulMono(a: nat, b: nat, f: nat)
    requires a <= b
    ensures a * f <= b * f
  {
  }

  lemma MulMonoOr(a: nat, b: nat, f: nat)
    ensures a < b || b * f <= a * f
  {
    if b <= a {
      MulMono(b, a, f);
    }
  }

  /** Floor division is pinned down by its bounds. */
  lemma FloorDiv(k: nat, n: nat, f: nat)
    requires f >= 1 && k * f <= n < (k + 1) * f
    ensures n / f == k && n % f == n - k * f
  {
    var q, rem := n / f, n % f;
    assert n == q * f + rem && rem < f;
    if k < q {
      MulMono(k + 1, q, f);
    } else if k > q {
      MulMono(q + 1, k, f);
    }
  }

  lemma ModOfMul(k: nat, f: nat)
    requires f >= 1
    ensures (k * f) % f == 0
  {
    Distrib(k, f);
    FloorDiv(k, k * f, f);
  }

  /** Adding the divisor keeps a multiple a multiple. */
  lemma ModStep(p: nat, f: nat)
    requires f >= 1 && p % f == 0
    ensures (p + f) % f == 0
  {
    var a := p / f;
    assert p == a * f;
    Distrib(a, f);
    ModOfMul(a + 1, f);
  }

  /** A multiple of `f` below a larger multiple of `f` leaves room for `f` more. */
  lemma MultipleRoom(p: nat, size: nat, f: nat)
    requires f >= 1 && p % f == 0 && size % f == 0 && p < size
    ensures p + f <= size
  {
    var a, b := p / f, size / f;
    assert p == a * f && size == b * f;
    MulMonoOr(a, b, f);
    MulMono(a + 1, b, f);
    Distrib(a, f);
  }
}
