/** Index arithmetic shared by the two rotating slideshows: advancing modulo the number of
    slides (`(prev + 1) % n`) and stepping back with wrap-around (`prev === 0 ? n - 1 : prev - 1`). */
module Rotation {

  /** `(i + 1) % n`: the next slide, wrapping from the last back to the first. */
  function Next(i: nat, n: nat): (r: nat)
    requires n > 0
    ensures r < n
    ensures i + 1 < n ==> r == i + 1
    ensures i + 1 == n ==> r == 0
  {
    (i + 1) % n
  }

  /** `i === 0 ? n - 1 : i - 1`: the previous slide, wrapping from the first to the last. */
  function Prev(i: nat, n: nat): (r: nat)
    requires n > 0
    ensures i < n ==> r < n
    ensures i == 0 ==> r == n - 1
    ensures i > 0 ==> r == i - 1
  {
    if i == 0 then n - 1 else i - 1
  }

  /** Stepping back undoes stepping forward and vice versa, on every index in range. */
  lemma PrevNextInverse(i: nat, n: nat)
    requires i < n
    ensures Prev(Next(i, n), n) == i
    ensures Next(Prev(i, n), n) == i
  {
  }

  /** The index after `k` advances starting from `i`. */
  function Rotations(i: nat, n: nat, k: nat): nat
    requires n > 0
  {
    if k == 0 then i else Next(Rotations(i, n, k - 1), n)
  }

  /** Starting from 0, the index after `k` advances over `n` slides is `k mod n`. */
  lemma {:induction false} RotationsFromZero(n: nat, k: nat)
    requires n > 0
    ensures Rotations(0, n, k) == k % n
  {
    if k > 0 {
      RotationsFromZero(n, k - 1);
      ModStep(k - 1, n);
    }
  }

  /** One more step on `k` is one more advance on `k mod n`. */
  lemma ModStep(k: nat, n: nat)
    requires n > 0
    ensures (k + 1) % n == Next(k % n, n)
  {
    var q, r := k / n, k % n;
    assert k == q * n + r;
    if r + 1 < n {
      ModUnique(k + 1, n, q, r + 1);
    } else {
      MulSucc(q, n);
      ModUnique(k + 1, n, q + 1, 0);
    }
  }

  /** The remainder is the only `r` in `[0, n)` with `k == q * n + r`. */
  lemma ModUnique(k: int, n: int, q: int, r: int)
    requires n > 0 && 0 <= r < n && k == q * n + r
    ensures k % n == r
  {
    var q', r' := k / n, k % n;
    assert k == q' * n + r';
    MulSub(q, q', n);
    MultipleInsideRange(q - q', n, r' - r);
  }

  lemma MulSucc(q: int, n: int)
    ensures (q + 1) * n == q * n + n
  {
  }

  lemma MulSub(a: int, b: int, n: int)
    ensures (a - b) * n == a * n - b * n
  {
  }

  lemma MultipleInsideRange(d: int, n: int, e: int)
    requires n > 0 && -n < e < n && d * n == e
    ensures d == 0
  {
    if d > 0 {
      MulSucc(d - 1, n);
      PositiveProduct(d - 1, n);
    } else if d < 0 {
      MulSucc(d, n);
      PositiveProduct(-(d + 1), n);
      MulNeg(d + 1, n);
    }
  }

  lemma MulNeg(a: int, n: int)
    ensures -a * n == -(a * n)
  {
  }

  lemma PositiveProduct(a: int, b: int)
    requires a >= 0 && b > 0
    ensures a * b >= 0
  {
  }
}
