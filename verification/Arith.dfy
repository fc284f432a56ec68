/** Products, quotients and remainders, one step at a time. */
module Arith {

  lemma MulNonNeg(a: int, b: int)
    requires a >= 0 && b >= 0
    ensures a * b >= 0
  {
  }

  lemma Distribute(a: int, b: int, c: int)
    ensures a * (b + c) == a * b + a * c
    ensures (b + c) * a == b * a + c * a
  {
  }

  lemma MulMonotone(a: int, b: int, c: int)
    requires a <= b && c >= 0
    ensures a * c <= b * c && c * a <= c * b
  {
    MulNonNeg(b - a, c);
    Distribute(c, b, -a);
  }

  lemma SmallMultiple(d: int, step: int)
    requires step > 0 && -step < d * step < step
    ensures d == 0
  {
    if d >= 1 { MulMonotone(1, d, step); }
    if d <= -1 { MulMonotone(d, -1, step); }
  }

  lemma DivModUnique(x: int, q: int, r: int, step: int)
    requires step > 0 && x == q * step + r && 0 <= r < step
    ensures x / step == q && x % step == r
  {
    assert x == x / step * step + x % step;
    Distribute(step, q, -(x / step));
    SmallMultiple(q - x / step, step);
  }

  lemma MultipleMod(k: int, step: int)
    requires step > 0
    ensures k * step % step == 0 && k * step / step == k
  {
    DivModUnique(k * step, k, 0, step);
  }

  /** Rounding down to a multiple of the step. */
  lemma StepDown(x: int, step: int)
    requires step > 0
    ensures x - step < x / step * step <= x && x / step * step % step == 0
    ensures x % step == 0 ==> x / step * step == x
  {
    assert x == x / step * step + x % step;
    MultipleMod(x / step, step);
  }

  lemma SumOfMultiples(a: int, b: int, step: int)
    requires step > 0 && a % step == 0 && b % step == 0
    ensures (a + b) % step == 0 && (a - b) % step == 0
  {
    StepDown(a, step);
    StepDown(b, step);
    Distribute(step, a / step, b / step);
    Distribute(step, a / step, -(b / step));
    MultipleMod(a / step + b / step, step);
    MultipleMod(a / step - b / step, step);
  }

  lemma SameFactor(a: int, b: int, step: int)
    requires step > 0 && a * step == b * step
    ensures a == b
  {
    Distribute(step, a, -b);
    SmallMultiple(a - b, step);
  }

  // ----- reals ------------------------------------------------------------------------

  lemma RealMulMonotone(a: real, b: real, c: real)
    requires a <= b && c >= 0.0
    ensures a * c <= b * c
  {
  }

  lemma RealDistribute(a: real, b: real, c: real)
    ensures (b + c) * a == b * a + c * a
    ensures (b - c) * a == b * a - c * a
  {
  }

  lemma RealDivMul(x: real, d: real)
    requires d != 0.0
    ensures x / d * d == x
  {
  }

  lemma RealDivBound(x: real, y: real, d: real)
    requires d > 0.0
    ensures x <= y * d <==> x / d <= y
    ensures x >= y * d <==> x / d >= y
  {
    RealDivMul(x, d);
    if x / d <= y { RealMulMonotone(x / d, y, d); }
    if x / d >= y { RealMulMonotone(y, x / d, d); }
  }

  lemma RealCancel(a: real, b: real, d: real)
    requires d > 0.0 && a * d <= b * d
    ensures a <= b
  {
    if a > b {
      RealDistribute(d, a, b);
    }
  }

  function RSum(v: seq<real>): real {
    if v == [] then 0.0 else RSum(v[..|v| - 1]) + v[|v| - 1]
  }

  /** One more term on each side of a scaled comparison of sums. */
  lemma AddScaled(p: real, x: real, q: real, y: real, d: real)
    requires p * d >= q && x * d >= y
    ensures (p + x) * d >= q + y
  {
    RealDistribute(d, p, x);
  }

  lemma {:induction false} RSumScaled(v: seq<real>, w: seq<real>, d: real)
    requires |v| == |w| && forall i | 0 <= i < |v| :: v[i] * d >= w[i]
    ensures RSum(v) * d >= RSum(w)
  {
    if v != [] {
      RSumScaled(v[..|v| - 1], w[..|w| - 1], d);
      AddScaled(RSum(v[..|v| - 1]), v[|v| - 1], RSum(w[..|w| - 1]), w[|w| - 1], d);
    }
  }

  /** The sum of x * n[i] - e[i]. */
  lemma {:induction false} RSumAffine(w: seq<real>, n: seq<real>, e: seq<real>, x: real)
    requires |w| == |n| == |e| && forall i | 0 <= i < |w| :: w[i] == n[i] * x - e[i]
    ensures RSum(w) == RSum(n) * x - RSum(e)
  {
    if w != [] {
      RSumAffine(w[..|w| - 1], n[..|n| - 1], e[..|e| - 1], x);
      RealDistribute(x, RSum(n[..|n| - 1]), n[|n| - 1]);
    }
  }

  lemma {:induction false} RSumNegated(v: seq<real>, w: seq<real>)
    requires |v| == |w| && forall i | 0 <= i < |v| :: w[i] == -v[i]
    ensures RSum(w) == -RSum(v)
  {
    if v != [] {
      RSumNegated(v[..|v| - 1], w[..|w| - 1]);
    }
  }

  lemma {:induction false} RSumPositive(v: seq<real>)
    requires v != [] && forall i | 0 <= i < |v| :: v[i] > 0.0
    ensures RSum(v) > 0.0
  {
    if |v| > 1 {
      RSumPositive(v[..|v| - 1]);
    }
  }

  lemma RSumAppend(v: seq<real>, x: real)
    ensures RSum(v + [x]) == RSum(v) + x
  {
    assert (v + [x])[..|v|] == v;
  }

  lemma {:induction false} RSumRemove(v: seq<real>, i: nat)
    requires i < |v|
    ensures RSum(v[..i] + v[i + 1..]) == RSum(v) - v[i]
  {
    var rest := v[..i] + v[i + 1..];
    if i == |v| - 1 {
      assert rest == v[..|v| - 1];
    } else {
      RSumRemove(v[..|v| - 1], i);
      assert v[..|v| - 1][..i] + v[..|v| - 1][i + 1..] == rest[..|rest| - 1];
    }
  }

  lemma {:induction false} RSumUpdate(v: seq<real>, i: nat, x: real)
    requires i < |v|
    ensures RSum(v[i := x]) == RSum(v) - v[i] + x
  {
    var w := v[i := x];
    if i == |v| - 1 {
      assert w[..|w| - 1] == v[..|v| - 1];
    } else {
      RSumUpdate(v[..|v| - 1], i, x);
      assert w[..|w| - 1] == v[..|v| - 1][i := x];
    }
  }
}
