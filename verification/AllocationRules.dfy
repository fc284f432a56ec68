/** What the terms of a target allocation mean: what a leg still has, when a close leaves dust, and when a
    group gets a fixed first slice or a runner. */
module AllocationRules {
  import opened Common
  import opened Arith
  import opened Sums
  import opened VolumePlanner
  import opened VolumeRules
  import opened TargetAllocation

  /** A leg starts with its volume, and every slice takes its share from it. */
  lemma LeftAfterSlice(slices: seq<int>, legs: seq<int>, s: nat, j: nat)
    requires s < |slices| && j < |legs| && Positive(slices) && Positive(legs)
    ensures Left(legs, 0, j) == legs[j]
    ensures Left(legs, Prefix(slices, s + 1), j) == Left(legs, Prefix(slices, s), j) - Share(slices, legs, s, j)
  {
    PrefixMonotone(legs, 0, j);
  }

  /** A slice leaves dust in a leg exactly when it takes something from it and what is then left is not
      nothing but cannot be closed. */
  lemma DustExactly(slices: seq<int>, legs: seq<int>, minVolume: int, s: nat, j: nat)
    requires s < |slices| && j < |legs| && Positive(slices) && Positive(legs)
    ensures TargetAllocation.LeavesDust(slices, legs, minVolume, s, j) <==>
      Share(slices, legs, s, j) > 0 && 0 < Left(legs, Prefix(slices, s + 1), j) < minVolume
  {
  }

  /** A group books a fixed first slice exactly when it holds more than 0.13 lots, has another target, and
      next to the 0.05 lots of that slice every other target can still have the least volume. */
  lemma FixesExactly(volume: int, count: nat, symbol: Symbol)
    requires symbol.lotSize > 0 && symbol.stepVolume > 0 && symbol.minVolume > 0 && volume % symbol.stepVolume == 0
    ensures var first := VolumeForLots(0.05, symbol);
      FixesFirst(volume, count, symbol) <==>
      && volume as real / symbol.lotSize as real > 0.13 && count >= 2 && first > 0
      && first + (count - 1) * LeastVolume(symbol) <= volume
  {
    var first := VolumeForLots(0.05, symbol);
    VolumeForLotsRoundsDown(0.05, symbol);
    if first > 0 { FirstFitsExactly(count, volume, first, symbol); }
  }

  /** The reserve is the least tradable volume. */
  lemma ReserveIsLeast(symbol: Symbol)
    requires symbol.stepVolume > 0 && symbol.minVolume > 0
    ensures ReserveVolume(symbol) == LeastVolume(symbol)
  {
    var step, min := symbol.stepVolume, symbol.minVolume;
    StepDown(min + step - 1, step);
    if (min + step - 1) / step < 1 { MulMonotone((min + step - 1) / step, 0, step); }
  }

  /** The shallow leg gets a runner exactly when the group has four targets or more, the last of them is not
      its own yet, and one of its slices can spare a least volume and keep one. The last such slice gives
      it, and the runner stands under the group's last target. */
  lemma RunnerExactly(shallow: TargetPlan, plan: TargetPlan, symbol: Symbol)
    requires symbol.stepVolume > 0 && symbol.minVolume > 0 && |plan.pips| == |plan.ordinals|
    ensures var donor, least := RunnerDonor(shallow, plan, symbol), LeastVolume(symbol);
      && (donor >= 0 <==>
            && |plan.ordinals| >= 4 && plan.ordinals[|plan.ordinals| - 1] !in shallow.ordinals
            && exists i | 0 <= i < |shallow.slices| :: shallow.slices[i] >= least + least)
      && (donor >= 0 ==>
            && donor < |shallow.slices| && shallow.slices[donor] >= least + least
            && (forall i | donor < i < |shallow.slices| :: shallow.slices[i] < least + least))
      && (donor >= 0 ==>
            var r := WithRunner(shallow, plan, symbol);
            && r.pips == shallow.pips + [plan.pips[|plan.pips| - 1]]
            && r.ordinals == shallow.ordinals + [plan.ordinals[|plan.ordinals| - 1]]
            && |r.slices| == |shallow.slices| + 1 && r.slices[|shallow.slices|] == least
            && r.slices[donor] == shallow.slices[donor] - least
            && (forall i | 0 <= i < |shallow.slices| && i != donor :: r.slices[i] == shallow.slices[i]))
      && (donor < 0 ==> WithRunner(shallow, plan, symbol) == shallow)
  {
    ReserveIsLeast(symbol);
  }
}
