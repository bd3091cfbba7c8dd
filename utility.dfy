/** The integer helpers of the engine: the compile-time floor square root. */
module Utility {

  /** The largest value of a 64-bit `std::size_t`. */
  const SizeMax: nat := 0xFFFF_FFFF_FFFF_FFFF

  /** The recursive step of the square root. `sq` is the square reached so far and
      `dlt` the odd number that leads to the next square; the answer is read off
      `dlt` once `sq` exceeds `value`. `(dlt >> 1) - 1` wraps around in `size_t`
      when `dlt` is 1, which the explicit `SizeMax` branch reproduces. While the
      square reached is still within `value`, the answer is at least `dlt / 2`,
      the root of that square: the recursion never answers below a root it has
      already passed. */
  function IsqrtImpl(sq: nat, dlt: nat, value: nat): (r: nat)
    requires dlt >= 1
    ensures sq <= value ==> dlt / 2 <= r
    decreases if sq <= value then value - sq + 1 else 0
  {
    if sq <= value then IsqrtImpl(sq + dlt, dlt + 2, value)
    else if dlt / 2 >= 1 then dlt / 2 - 1
    else SizeMax
  }

  /** The arguments of every invocation of `IsqrtImpl` made from `(sq, dlt)`,
      the first invocation included. */
  ghost function IsqrtCalls(sq: nat, dlt: nat, value: nat): seq<(nat, nat)>
    requires dlt >= 1
    decreases if sq <= value then value - sq + 1 else 0
  {
    [(sq, dlt)] + if sq <= value then IsqrtCalls(sq + dlt, dlt + 2, value) else []
  }

  /** The floor square root: seeding the recursion with `(1, 3)` walks the squares. */
  function Isqrt(value: nat): (r: nat)
    ensures r * r <= value < (r + 1) * (r + 1)
  {
    IsqrtImplFloor(1, value);
    IsqrtImpl(1, 3, value)
  }

  /** The square of `j` as the sum of the first `j` odd numbers, the way the
      recursion builds it. */
  function Square(j: nat): nat
  {
    if j == 0 then 0 else Square(j - 1) + 2 * j - 1
  }

  lemma {:induction false} SquareIsProduct(j: nat)
    ensures Square(j) == j * j
  {
    if j > 0 {
      SquareIsProduct(j - 1);
      assert j * j == (j - 1) * (j - 1) + 2 * j - 1;
    }
  }

  lemma SquareMonotone(a: nat, b: nat)
    requires a <= b
    ensures a * a <= b * b
  {
    assert a * a <= a * b <= b * b;
  }

  /** Started at the square of `k` with its odd step `2k+1`, and with `(k-1)^2` not
      above `value`, the recursion yields the floor square root of `value`. */
  lemma {:induction false} IsqrtImplFloor(k: nat, value: nat)
    requires k >= 1 && (k - 1) * (k - 1) <= value
    ensures var r := IsqrtImpl(k * k, 2 * k + 1, value);
            r * r <= value < (r + 1) * (r + 1)
    decreases value + 1 - k * k
  {
    if k * k <= value {
      assert (k + 1) * (k + 1) == k * k + (2 * k + 1);
      IsqrtImplFloor(k + 1, value);
    } else {
      assert (2 * k + 1) / 2 == k;
    }
  }

  /** The floor square root is unique. */
  lemma IsqrtUnique(value: nat, r: nat, s: nat)
    requires r * r <= value < (r + 1) * (r + 1)
    requires s * s <= value < (s + 1) * (s + 1)
    ensures r == s
  {
    if r < s {
      SquareMonotone(r + 1, s);
    } else if s < r {
      SquareMonotone(s + 1, r);
    }
  }

  /** The root is the one number whose square bounds `value` from below and whose
      successor's square bounds it from above. */
  lemma IsqrtIs(value: nat, s: nat)
    requires s * s <= value < (s + 1) * (s + 1)
    ensures Isqrt(value) == s
  {
    IsqrtUnique(value, Isqrt(value), s);
  }

  lemma IsqrtOfZero()
    ensures Isqrt(0) == 0
  {
    IsqrtUnique(0, Isqrt(0), 0);
  }

  lemma IsqrtMonotone(a: nat, b: nat)
    requires a <= b
    ensures Isqrt(a) <= Isqrt(b)
  {
    var ra, rb := Isqrt(a), Isqrt(b);
    if rb < ra {
      SquareMonotone(rb + 1, ra);
    }
  }

  lemma IsqrtCallsStep(sq: nat, dlt: nat, value: nat)
    requires dlt >= 1 && sq <= value
    ensures IsqrtCalls(sq, dlt, value) == [(sq, dlt)] + IsqrtCalls(sq + dlt, dlt + 2, value)
  {
  }

  lemma IsqrtCallsLast(sq: nat, dlt: nat, value: nat)
    requires dlt >= 1 && sq > value
    ensures IsqrtCalls(sq, dlt, value) == [(sq, dlt)]
  {
  }

  /** The `n` argument pairs of the recursion started at the square of `k`:
      the squares of `k, k+1, ...` with their odd steps. */
  ghost function SquaresFrom(k: nat, n: nat): seq<(nat, nat)>
    decreases n
  {
    if n == 0 then [] else [(Square(k), 2 * k + 1)] + SquaresFrom(k + 1, n - 1)
  }

  lemma {:induction false} SquaresFromAt(k: nat, n: nat, i: nat)
    requires i < n
    ensures |SquaresFrom(k, n)| == n
    ensures SquaresFrom(k, n)[i] == (Square(k + i), 2 * (k + i) + 1)
    decreases n
  {
    if i > 0 {
      SquaresFromAt(k + 1, n - 1, i - 1);
    } else if n > 1 {
      SquaresFromAt(k + 1, n - 1, 0);
    }
  }

  /** Every invocation of the recursion started at the square of `k` receives the
      square of some `j >= k` and the odd step `2j+1`: the squares grow one root
      at a time. */
  lemma {:induction false} IsqrtCallsSquares(k: nat, sq: nat, dlt: nat, value: nat)
    requires sq == Square(k) && dlt == 2 * k + 1
    ensures var calls := IsqrtCalls(sq, dlt, value);
            calls == SquaresFrom(k, |calls|)
    decreases value - sq
  {
    if sq <= value {
      assert sq + dlt == Square(k + 1);
      IsqrtCallsSquares(k + 1, sq + dlt, dlt + 2, value);
      IsqrtCallsStep(sq, dlt, value);
    } else {
      IsqrtCallsLast(sq, dlt, value);
    }
  }

  /** Only the last invocation sees a square above `value`. */
  lemma {:induction false} IsqrtCallsStop(sq: nat, dlt: nat, value: nat)
    requires dlt >= 1
    ensures var calls := IsqrtCalls(sq, dlt, value);
            && (forall i :: 0 <= i < |calls| - 1 ==> calls[i].0 <= value)
            && calls[|calls| - 1].0 > value
    decreases value - sq
  {
    if sq <= value {
      var rest := IsqrtCalls(sq + dlt, dlt + 2, value);
      IsqrtCallsStop(sq + dlt, dlt + 2, value);
      IsqrtCallsStep(sq, dlt, value);
      PrependKeepsStop((sq, dlt), rest, value);
    } else {
      IsqrtCallsLast(sq, dlt, value);
    }
  }

  lemma PrependKeepsStop(c: (nat, nat), rest: seq<(nat, nat)>, value: nat)
    requires c.0 <= value && |rest| > 0
    requires forall i :: 0 <= i < |rest| - 1 ==> rest[i].0 <= value
    ensures var calls := [c] + rest;
            && (forall i :: 0 <= i < |calls| - 1 ==> calls[i].0 <= value)
            && calls[|calls| - 1] == rest[|rest| - 1]
  {
    var calls := [c] + rest;
    forall i | 0 < i < |calls| - 1
      ensures calls[i].0 <= value
    {
      assert calls[i] == rest[i - 1];
    }
  }

  /** `Isqrt` makes `Isqrt(value) + 1` invocations, at the squares of `1` up to
      `Isqrt(value) + 1`, the last one being the first square above `value`. */
  lemma IsqrtCallsCount(value: nat)
    ensures var calls := IsqrtCalls(1, 3, value);
            && |calls| == Isqrt(value) + 1
            && (forall i :: 0 <= i < |calls| ==>
                  calls[i].0 == Square(i + 1) && calls[i].1 == 2 * (i + 1) + 1)
            && (forall i :: 0 <= i < |calls| - 1 ==> calls[i].0 <= value)
            && calls[|calls| - 1].0 > value
  {
    var calls := IsqrtCalls(1, 3, value);
    IsqrtCallsSquares(1, 1, 3, value);
    IsqrtCallsStop(1, 3, value);
    var n := |calls|;
    forall i | 0 <= i < n
      ensures calls[i].0 == Square(i + 1) && calls[i].1 == 2 * (i + 1) + 1
    {
      SquaresFromAt(1, n, i);
    }
    assert calls[n - 1].0 == Square(n) > value;
    SquareIsProduct(n);
    if n >= 2 {
      assert calls[n - 2].0 == Square(n - 1) <= value;
    }
    SquareIsProduct(n - 1);
    IsqrtUnique(value, Isqrt(value), n - 1);
  }

  /** For arguments below `(2^32 - 1)^2` no invocation made by `Isqrt` carries a
      square or a step beyond `SizeMax`, so the unbounded model agrees with the
      64-bit `size_t` computation. */
  lemma IsqrtCallsFit(value: nat)
    requires value < 0xFFFF_FFFF * 0xFFFF_FFFF
    ensures forall c :: c in IsqrtCalls(1, 3, value) ==> c.0 <= SizeMax && c.1 <= SizeMax
  {
    var calls := IsqrtCalls(1, 3, value);
    IsqrtCallsCount(value);
    var r := Isqrt(value);
    if 0xFFFF_FFFF <= r {
      SquareMonotone(0xFFFF_FFFF, r);
    }
    forall c | c in calls
      ensures c.0 <= SizeMax && c.1 <= SizeMax
    {
      var i :| 0 <= i < |calls| && calls[i] == c;
      assert 1 + i <= 0xFFFF_FFFF;
      assert c.0 == Square(1 + i);
      SquareIsProduct(1 + i);
      SquareMonotone(1 + i, 0xFFFF_FFFF);
    }
  }
}
