/** Index arithmetic with wrap-around, as the lightbox and the testimonial
    carousel write it with JavaScript's `%` operator. */
module Cyclic {

  /** JavaScript's `a % n` for a positive divisor: the remainder takes the sign
      of the dividend (truncating division), unlike Dafny's Euclidean `%`. */
  function JsRem(a: int, n: int): (r: int)
    requires n > 0
    ensures a >= 0 ==> 0 <= r < n
    ensures a < 0 ==> -n < r <= 0
    ensures -n < a < n ==> r == a
    ensures (a - r) % n == 0
  {
    if -n < a < n then
      assert a - a == 0 * n;
      MultipleHasNoRemainder(0, n);
      a
    else if a >= 0 then
      assert a - a % n == (a / n) * n;
      MultipleHasNoRemainder(a / n, n);
      a % n
    else
      assert a - -((-a) % n) == -(((-a) / n) * n);
      assert -(((-a) / n) * n) == (-((-a) / n)) * n;
      MultipleHasNoRemainder(-((-a) / n), n);
      -((-a) % n)
  }

  /** A multiple of `n` leaves no remainder under Dafny's `%`. */
  lemma MultipleHasNoRemainder(q: int, n: int)
    requires n > 0
    ensures (q * n) % n == 0
  {
    var m := q * n;
    var k := q - m / n;
    assert m == n * (m / n) + m % n;
    assert m % n == n * k;
  }

  /** A multiple of the divisor leaves no remainder. */
  lemma JsRemOfDivisor(n: int)
    requires n > 0
    ensures JsRem(n, n) == 0
  {
    assert n == n * 1 + 0;
  }

  /** `(i + 1) % n`: the index after `i`, wrapping from the last to the first. */
  function NextIndex(i: int, n: int): (r: int)
    requires n > 0
    ensures 0 <= i < n ==> r == if i == n - 1 then 0 else i + 1
  {
    JsRemOfDivisor(n);
    JsRem(i + 1, n)
  }

  /** `(i - 1 + n) % n`: the index before `i`, wrapping from the first to the last. */
  function PrevIndex(i: int, n: int): (r: int)
    requires n > 0
    ensures 0 <= i < n ==> r == if i == 0 then n - 1 else i - 1
  {
    JsRem(i - 1 + n, n)
  }

  /** From any index in range, both steps stay in range. */
  lemma StepsStayInRange(i: int, n: int)
    requires 0 <= i < n
    ensures 0 <= NextIndex(i, n) < n && 0 <= PrevIndex(i, n) < n
  {
  }

  /** A step forward and a step back, in either order, return to the start. */
  lemma StepsAreInverse(i: int, n: int)
    requires 0 <= i < n
    ensures PrevIndex(NextIndex(i, n), n) == i
    ensures NextIndex(PrevIndex(i, n), n) == i
  {
  }

  /** With one position there is nowhere else to go. */
  lemma SingleStep(n: int)
    requires n == 1
    ensures NextIndex(0, n) == 0 && PrevIndex(0, n) == 0
  {
  }

  /** The steps from the "not found" index -1 that `findIndex` reports:
      forward lands on the first index, back on `n - 2`, or on 0 (JavaScript's
      `-0`) when there is a single position. */
  lemma StepsFromMissing(n: int)
    requires n > 0
    ensures NextIndex(-1, n) == 0
    ensures PrevIndex(-1, n) == if n >= 2 then n - 2 else 0
  {
  }
}
