/** What the volume planner's answers mean: the largest volume for some lots, how many targets a volume
    can pay for, and a split that follows the weights. */
module VolumeRules {
  import opened Common
  import opened Arith
  import opened Sums
  import opened VolumePlanner

  /** A volume the broker closes or buys. */
  predicate Tradable(volume: int, symbol: Symbol)
    requires symbol.stepVolume > 0
  {
    volume > 0 && volume % symbol.stepVolume == 0 && volume >= symbol.minVolume
  }

  /** The volume for some lots is the largest tradable one they pay for; when they pay for more than the
      broker takes at once, none. */
  lemma VolumeForLotsIsLargest(lots: real, symbol: Symbol, volume: int)
    requires symbol.lotSize > 0 && symbol.stepVolume > 0 && symbol.minVolume > 0
    requires Tradable(volume, symbol) && volume <= symbol.maxVolume && volume as real / symbol.lotSize as real <= lots
    ensures if lots * symbol.lotSize as real >= (symbol.maxVolume + 1) as real
            then VolumeForLots(lots, symbol) == 0
            else volume <= VolumeForLots(lots, symbol)
  {
    RealDivBound(volume as real, lots, symbol.lotSize as real);
    RealDivBound(volume as real, 0.0, symbol.lotSize as real);
    StepsBelow(volume, WholeVolume(lots, symbol.lotSize), symbol.stepVolume);
  }

  lemma StepsBelow(volume: int, raw: int, step: int)
    requires step > 0 && volume % step == 0 && volume <= raw
    ensures volume <= ToStep(raw, step)
  {
    StepDown(volume, step);
    StepDown(raw, step);
    if volume / step > raw / step {
      MulMonotone(raw / step + 1, volume / step, step);
      Distribute(step, raw / step, 1);
    }
    MulMonotone(volume / step, raw / step, step);
  }

  /** The least tradable volume. */
  function LeastVolume(symbol: Symbol): int
    requires symbol.stepVolume > 0
  {
    MinimumSteps(symbol) * symbol.stepVolume
  }

  lemma LeastVolumeIsLeast(symbol: Symbol, volume: int)
    requires symbol.stepVolume > 0
    ensures Tradable(LeastVolume(symbol), symbol)
    ensures Tradable(volume, symbol) ==> LeastVolume(symbol) <= volume
  {
    var step, min, n := symbol.stepVolume, symbol.minVolume, MinimumSteps(symbol);
    MulMonotone(1, n, step);
    MultipleMod(n, step);
    StepDown(min + step - 1, step);
    MulMonotone((min + step - 1) / step, n, step);
    if Tradable(volume, symbol) && volume < n * step {
      StepDown(volume, step);
      if volume / step >= n { MulMonotone(n, volume / step, step); }
      Distribute(step, n, -1);
      MulMonotone(volume / step, n - 1, step);
      if volume / step < 1 { MulMonotone(volume / step, 0, step); }
    }
  }

  /** A volume pays for as many exits as least volumes fit into it. */
  lemma ExitsExactly(volume: int, symbol: Symbol, exits: nat)
    requires Aligned(volume, symbol)
    ensures exits <= AvailableExits(volume, symbol) <==> exits * LeastVolume(symbol) <= volume
  {
    var step, n, total := symbol.stepVolume, MinimumSteps(symbol), volume / symbol.stepVolume;
    StepDown(volume, step);
    StepDown(total, n);
    Associate(exits, n, step);
    if exits <= total / n {
      MulMonotone(exits, total / n, n);
      MulMonotone(exits * n, total, step);
    } else {
      MulMonotone(total / n + 1, exits, n);
      Distribute(n, total / n, 1);
      MulMonotone(total + 1, exits * n, step);
      Distribute(step, total, 1);
    }
  }

  lemma Associate(a: int, b: int, c: int)
    ensures a * b * c == a * (b * c)
  {
  }

  /** A plan exists exactly for a volume in broker steps and positive targets with weights, if the volume
      pays for the only target or for two of several. */
  lemma PlannableExactly(volume: int, symbol: Symbol, targets: seq<int>, weights: seq<int>)
    ensures Plannable(volume, symbol, targets, weights) <==>
      && volume > 0 && symbol.minVolume > 0 && symbol.stepVolume > 0 && volume % symbol.stepVolume == 0
      && targets != [] && |weights| == |targets|
      && (forall i | 0 <= i < |targets| :: targets[i] > 0) && (forall i | 0 <= i < |weights| :: weights[i] > 0)
      && (if |targets| == 1 then 1 else 2) * LeastVolume(symbol) <= volume
  {
    if Aligned(volume, symbol) {
      ExitsExactly(volume, symbol, 1);
      ExitsExactly(volume, symbol, 2);
    }
  }

  /** As many targets as there are exits, from the first on; of three or more, two exits take the first
      and the third. */
  lemma SelectedExactly(available: int, count: int)
    requires available >= 1 && count >= 1
    ensures var v := SelectedOrdinals(available, count);
      && |v| == (if available < count then available else count)
      && (available == 2 && count > 2 ==> v == [1, 3])
      && (available != 2 || count <= 2 ==> forall i | 0 <= i < |v| :: v[i] == i + 1)
  {
  }

  lemma EvenSum(count: nat, k: nat)
    requires k <= count
    ensures Prefix(Evenly(count), k) == k
  {
    if k > 0 { EvenSum(count, k - 1); }
  }

  /** A split succeeds exactly when every target can have the least volume. */
  lemma SplittableExactly(volume: int, symbol: Symbol, weights: seq<int>)
    requires symbol.stepVolume > 0
    ensures Splittable(volume, symbol, weights) <==>
      && volume > 0 && symbol.minVolume > 0 && volume % symbol.stepVolume == 0
      && weights != [] && (forall i | 0 <= i < |weights| :: weights[i] > 0)
      && |weights| * LeastVolume(symbol) <= volume
  {
    var step, n, total := symbol.stepVolume, MinimumSteps(symbol), volume / symbol.stepVolume;
    StepDown(volume, step);
    Associate(|weights|, n, step);
    if total >= n * |weights| { MulMonotone(n * |weights|, total, step); }
    if total < n * |weights| {
      MulMonotone(total + 1, n * |weights|, step);
      Distribute(step, total, 1);
    }
  }

  /** A fixed first slice fits exactly when there is another target and every other one can still have
      the least volume. The weights of the rest are all the same. */
  lemma FirstFitsExactly(count: nat, volume: int, first: int, symbol: Symbol)
    requires symbol.stepVolume > 0 && symbol.minVolume > 0 && volume % symbol.stepVolume == 0
    requires first % symbol.stepVolume == 0
    ensures FirstFits(count, volume, first, symbol) <==>
      count >= 2 && first > 0 && first + (count - 1) * LeastVolume(symbol) <= volume
    ensures count >= 1 ==> var even := Evenly(count - 1);
      |even| == count - 1 && forall i | 0 <= i < |even| :: even[i] == 1
  {
    if count >= 2 {
      SplittableExactly(volume - first, symbol, Evenly(count - 1));
      SumOfMultiples(volume, first, symbol.stepVolume);
      LeastVolumeIsLeast(symbol, LeastVolume(symbol));
      MulMonotone(1, count - 1, LeastVolume(symbol));
    }
  }

  // ----- the weighted split -----------------------------------------------------------------

  /** Extra steps: slice i is one step above the whole part of its share. */
  predicate Extra(slices: seq<int>, symbol: Symbol, wholes: seq<int>, i: nat)
    requires symbol.stepVolume > 0 && i < |slices| == |wholes|
  {
    slices[i] == (MinimumSteps(symbol) + wholes[i] + 1) * symbol.stepVolume
  }

  /** Heavier targets never get less, and of equally heavy ones the earlier gets as much or one step
      more. */
  lemma SplitFollowsWeights(slices: seq<int>, volume: int, symbol: Symbol, weights: seq<int>, i: nat, j: nat)
    requires Splittable(volume, symbol, weights) && Sum(weights) > 0 && FairSplit(slices, volume, symbol, weights)
    requires i < |weights| && j < |weights|
    ensures weights[i] > weights[j] ==> slices[i] >= slices[j]
    ensures weights[i] == weights[j] && i < j ==> slices[j] <= slices[i] <= slices[j] + symbol.stepVolume
  {
    var t, spare, step := Sum(weights), Spare(volume, symbol, |weights|), symbol.stepVolume;
    var wholes, rests := Wholes(spare, weights, t), Rests(spare, weights, t);
    var least := MinimumSteps(symbol);
    if weights[i] > weights[j] {
      SharesGrow(spare, weights[j], weights[i], t);
      if spare == 0 {
        NothingExtra(slices, volume, symbol, weights, j);
      } else if wholes[i] > wholes[j] {
        MulMonotone(least + wholes[j] + 1, least + wholes[i], step);
      }
      MulMonotone(least + wholes[j], least + wholes[i], step);
      MulMonotone(least + wholes[j] + 1, least + wholes[i] + 1, step);
    }
    Distribute(step, least + wholes[j], 1);
  }

  lemma SharesGrow(spare: int, v: int, w: int, t: int)
    requires spare >= 0 && 0 < v < w && t > 0
    ensures Whole(spare, v, t) <= Whole(spare, w, t)
    ensures spare > 0 && Whole(spare, v, t) == Whole(spare, w, t) ==> Rest(spare, v, t) < Rest(spare, w, t)
  {
    var a, b := spare * v, spare * w;
    Distribute(spare, w, -v);
    MulMonotone(1, w - v, spare);
    assert a == t * (a / t) + a % t && b == t * (b / t) + b % t;
    if a / t > b / t {
      MulMonotone(b / t + 1, a / t, t);
      Distribute(t, b / t, 1);
    }
  }

  lemma {:induction false} PrefixAtLeast(v: seq<int>, low: int, k: nat)
    requires k <= |v| && forall i | 0 <= i < |v| :: v[i] >= low
    ensures Prefix(v, k) >= k * low
  {
    if k > 0 {
      PrefixAtLeast(v, low, k - 1);
      Distribute(low, k - 1, 1);
    }
  }

  /** Without spare steps nobody gets an extra one. */
  lemma NothingExtra(slices: seq<int>, volume: int, symbol: Symbol, weights: seq<int>, j: nat)
    requires Splittable(volume, symbol, weights) && Sum(weights) > 0 && FairSplit(slices, volume, symbol, weights)
    requires Spare(volume, symbol, |weights|) == 0 && j < |weights|
    ensures slices[j] == LeastVolume(symbol)
  {
    var step, least, n := symbol.stepVolume, MinimumSteps(symbol), |weights|;
    Distribute(step, least, 1);
    forall i | 0 <= i < n ensures slices[i] == least * step || slices[i] == (least + 1) * step {
      assert Wholes(0, weights, Sum(weights))[i] == 0;
    }
    if slices[j] == (least + 1) * step {
      var lower := slices[j := least * step];
      PrefixUpdate(slices, j, least * step, n);
      PrefixAtLeast(lower, least * step, n);
      StepDown(volume, step);
      Associate(n, least, step);
    }
  }

  /** Beyond the least volume each slice is its share by weight of what is left to spread, off by no more
      than a step. */
  lemma SplitIsProportional(slices: seq<int>, volume: int, symbol: Symbol, weights: seq<int>, i: nat)
    requires Splittable(volume, symbol, weights) && Sum(weights) > 0 && FairSplit(slices, volume, symbol, weights)
    requires i < |weights|
    ensures var t, least := Sum(weights), LeastVolume(symbol);
      var ideal := (volume - |weights| * least) * weights[i];
      ideal - symbol.stepVolume * t < (slices[i] - least) * t <= ideal + symbol.stepVolume * t
  {
    var t, spare, step, n := Sum(weights), Spare(volume, symbol, |weights|), symbol.stepVolume, MinimumSteps(symbol);
    var whole := Whole(spare, weights[i], t);
    assert Wholes(spare, weights, t)[i] == whole;
    SpareVolume(volume, symbol, |weights|, weights[i]);
    OverLeast(slices[i], n, whole, step);
    ShareDivides(spare, weights[i], t);
    ShareOfStep(step, t, whole, Rest(spare, weights[i], t), spare * weights[i], slices[i] - n * step);
  }

  lemma ShareDivides(spare: int, w: int, t: int)
    requires t > 0
    ensures spare * w == t * Whole(spare, w, t) + Rest(spare, w, t) && 0 <= Rest(spare, w, t) < t
  {
  }

  lemma OverLeast(slice: int, n: int, whole: int, step: int)
    requires slice == (n + whole) * step || slice == (n + whole + 1) * step
    ensures slice - n * step == whole * step || slice - n * step == (whole + 1) * step
  {
    Distribute(step, n, whole);
    Distribute(step, n, whole + 1);
  }

  /** What is left to spread, in volume, for one weight. */
  lemma SpareVolume(volume: int, symbol: Symbol, count: nat, w: int)
    requires Aligned(volume, symbol)
    ensures (volume - count * LeastVolume(symbol)) * w == symbol.stepVolume * (Spare(volume, symbol, count) * w)
  {
    var step, n := symbol.stepVolume, MinimumSteps(symbol);
    StepDown(volume, step);
    Associate(count, n, step);
    Distribute(step, volume / step, -(n * count));
    Associate(step, Spare(volume, symbol, count), w);
  }

  lemma ShareOfStep(step: int, t: int, whole: int, rest: int, share: int, over: int)
    requires step > 0 && t > 0 && share == t * whole + rest && 0 <= rest < t
    requires over == whole * step || over == (whole + 1) * step
    ensures step * share - step * t < over * t <= step * share + step * t
  {
    Distribute(step, t * whole, rest);
    MulMonotone(0, rest, step);
    MulMonotone(rest + 1, t, step);
    Distribute(step, rest, 1);
    Associate(whole, step, t);
    Distribute(step, whole, 1);
    Distribute(t, whole * step, step);
  }
}
