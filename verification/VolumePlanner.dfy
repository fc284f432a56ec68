/** Splitting a position's volume over its targets in broker steps. Volumes are integers in
    the broker's smallest unit; weights and lots are exact. */
module VolumePlanner {
  import opened Common
  import opened Arith
  import opened Sums

  datatype Symbol = Symbol(minVolume: int, stepVolume: int, maxVolume: int, lotSize: int)

  /** Slice i closes `slices[i]` at target `pips[i]`, the group's target number `ordinals[i]`. */
  datatype TargetPlan = TargetPlan(slices: seq<int>, pips: seq<int>, ordinals: seq<int>)

  function WholeVolume(lots: real, lotSize: int): int { (lots * lotSize as real).Floor }

  function ToStep(volume: int, step: int): int
    requires step > 0
  {
    volume / step * step
  }

  /** The volume bought for a number of lots: rounded down to the broker step, or 0. */
  function VolumeForLots(lots: real, symbol: Symbol): int {
    if lots <= 0.0 || symbol.lotSize <= 0 || symbol.minVolume <= 0 || symbol.stepVolume <= 0
       || symbol.maxVolume < symbol.minVolume then 0
    else
      var raw := WholeVolume(lots, symbol.lotSize);
      if raw > symbol.maxVolume then 0 else
      var stepped := ToStep(raw, symbol.stepVolume);
      if stepped >= symbol.minVolume then stepped else 0
  }

  /** A volume bought for `lots` is never worth more than `lots`, and the broker takes it. */
  lemma VolumeForLotsRoundsDown(lots: real, symbol: Symbol)
    ensures var v := VolumeForLots(lots, symbol);
      && v >= 0
      && (v > 0 ==> && symbol.lotSize > 0 && symbol.stepVolume > 0
                    && v % symbol.stepVolume == 0 && symbol.minVolume <= v <= symbol.maxVolume
                    && v as real / symbol.lotSize as real <= lots)
  {
    if VolumeForLots(lots, symbol) > 0 {
      SteppedBelow(lots, symbol.lotSize, symbol.stepVolume);
    }
  }

  lemma SteppedBelow(lots: real, lotSize: int, step: int)
    requires step > 0 && lotSize > 0
    ensures var v := ToStep(WholeVolume(lots, lotSize), step);
      v % step == 0 && v <= WholeVolume(lots, lotSize) && v as real / lotSize as real <= lots
  {
    StepDown(WholeVolume(lots, lotSize), step);
    FloorBelow(ToStep(WholeVolume(lots, lotSize), step), lots * lotSize as real);
    RealDivBound(ToStep(WholeVolume(lots, lotSize), step) as real, lots, lotSize as real);
  }

  lemma FloorBelow(v: int, x: real)
    requires v <= x.Floor
    ensures v as real <= x
  {
  }

  // ----- the weighted split -----------------------------------------------------------

  /** The fewest broker steps one close can have. */
  function MinimumSteps(symbol: Symbol): int
    requires symbol.stepVolume > 0
  {
    var steps := (symbol.minVolume + symbol.stepVolume - 1) / symbol.stepVolume;
    if steps > 1 then steps else 1
  }

  predicate Aligned(volume: int, symbol: Symbol) {
    volume > 0 && symbol.stepVolume > 0 && symbol.minVolume > 0 && volume % symbol.stepVolume == 0
  }

  /** Ideal share of `spare` steps for weight w of total weight t: whole steps and the rest,
      over the denominator t. */
  function Whole(spare: int, w: int, t: int): int requires t > 0 { spare * w / t }
  function Rest(spare: int, w: int, t: int): int requires t > 0 { spare * w % t }

  /** Index a comes before index b when the leftover steps are handed out. */
  predicate Before(rests: seq<int>, a: nat, b: nat)
    requires a < |rests| && b < |rests|
  {
    rests[a] > rests[b] || (rests[a] == rests[b] && a < b)
  }

  function Wholes(spare: int, weights: seq<int>, t: int): seq<int>
    requires t > 0
  {
    seq(|weights|, i requires 0 <= i < |weights| => Whole(spare, weights[i], t))
  }

  function Rests(spare: int, weights: seq<int>, t: int): seq<int>
    requires t > 0
  {
    seq(|weights|, i requires 0 <= i < |weights| => Rest(spare, weights[i], t))
  }

  lemma {:induction false} SharesAddUp(spare: int, weights: seq<int>, t: int, k: nat)
    requires t > 0 && k <= |weights|
    ensures t * Prefix(Wholes(spare, weights, t), k) + Prefix(Rests(spare, weights, t), k)
            == spare * Prefix(weights, k)
    ensures 0 <= Prefix(Rests(spare, weights, t), k) <= k * t
    ensures k > 0 ==> Prefix(Rests(spare, weights, t), k) < k * t
  {
    if k > 0 {
      SharesAddUp(spare, weights, t, k - 1);
      var w, wholes := weights[k - 1], Wholes(spare, weights, t);
      assert spare * w == t * Whole(spare, w, t) + Rest(spare, w, t);
      Distribute(t, Prefix(wholes, k - 1), wholes[k - 1]);
      Distribute(spare, Prefix(weights, k - 1), w);
      Distribute(t, k - 1, 1);
    }
  }

  /** The whole shares leave fewer steps over than there are targets. */
  lemma LeftoverIsSmall(spare: int, weights: seq<int>)
    requires spare >= 0 && |weights| > 0 && Positive(weights) && Sum(weights) > 0
    ensures var t := Sum(weights);
      0 <= spare - Sum(Wholes(spare, weights, t)) < |weights|
  {
    var t := Sum(weights);
    SharesAddUp(spare, weights, t, |weights|);
    var leftover := spare - Sum(Wholes(spare, weights, t));
    Distribute(t, spare, -Sum(Wholes(spare, weights, t)));
    if leftover < 0 { MulMonotone(leftover, -1, t); }
    if leftover >= |weights| { MulMonotone(|weights|, leftover, t); }
  }

  lemma {:induction false} SumPositive(v: seq<int>, k: nat)
    requires Positive(v) && 0 < k <= |v|
    ensures Prefix(v, k) > 0
  {
    if k > 1 {
      SumPositive(v, k - 1);
    }
  }

  /** Slices that are the least plus a whole share each, in steps, or one step more; the extra
      steps go to the largest rests, earlier first. */
  predicate Fair(slices: seq<int>, volume: int, least: int, step: int, wholes: seq<int>, rests: seq<int>) {
    && |slices| == |wholes| == |rests|
    && Sum(slices) == volume
    && (forall i | 0 <= i < |slices| ::
          slices[i] == (least + wholes[i]) * step || slices[i] == (least + wholes[i] + 1) * step)
    && (forall i, j | 0 <= i < |slices| && 0 <= j < |slices|
          && slices[i] == (least + wholes[i] + 1) * step && slices[j] == (least + wholes[j]) * step ::
          Before(rests, i, j))
  }

  /** Steps to spread by weight once every target has its least. */
  function Spare(volume: int, symbol: Symbol, targets: nat): int
    requires symbol.stepVolume > 0
  {
    volume / symbol.stepVolume - MinimumSteps(symbol) * targets
  }

  /** A largest-remainder split in broker steps. */
  predicate FairSplit(slices: seq<int>, volume: int, symbol: Symbol, weights: seq<int>)
    requires Aligned(volume, symbol) && Sum(weights) > 0
  {
    var spare := Spare(volume, symbol, |weights|);
    Fair(slices, volume, MinimumSteps(symbol), symbol.stepVolume,
         Wholes(spare, weights, Sum(weights)), Rests(spare, weights, Sum(weights)))
  }

  predicate Splittable(volume: int, symbol: Symbol, weights: seq<int>) {
    && Aligned(volume, symbol) && |weights| > 0 && Positive(weights)
    && volume / symbol.stepVolume >= MinimumSteps(symbol) * |weights|
  }

  lemma {:induction false} ScaledPrefix(v: seq<int>, w: seq<int>, step: int, k: nat)
    requires |v| == |w| && k <= |v| && forall i | 0 <= i < |v| :: w[i] == v[i] * step
    ensures Prefix(w, k) == Prefix(v, k) * step
  {
    if k > 0 {
      ScaledPrefix(v, w, step, k - 1);
    }
  }

  /** The split succeeds exactly on aligned volumes that give every target its minimum; it
      spends the whole volume, each share is its ideal rounded down or up to a step, and the
      larger remainders are rounded up, earlier targets first. */
  method SplitWeighted(volume: int, symbol: Symbol, weights: seq<int>) returns (r: Option<seq<int>>)
    ensures r.Some? <==> Splittable(volume, symbol, weights)
    ensures r.Some? ==> Sum(weights) > 0 && FairSplit(r.value, volume, symbol, weights)
  {
    if volume <= 0 || symbol.stepVolume <= 0 || symbol.minVolume <= 0 || volume % symbol.stepVolume != 0 {
      return None;
    }
    if |weights| == 0 || exists i | 0 <= i < |weights| :: weights[i] <= 0 {
      return None;
    }
    SumPositive(weights, |weights|);
    var totalWeight := Sum(weights);
    var totalSteps := volume / symbol.stepVolume;
    var least := MinimumSteps(symbol);
    var required := least * |weights|;
    if totalSteps < required {
      return None;
    }
    var spare := totalSteps - required;
    assert spare == Spare(volume, symbol, |weights|);
    var steps, remainders := WholeShares(spare, weights, totalWeight, least);
    ghost var floors := steps[..];
    LeftoverFits(spare, weights, least, floors);
    var leftover := totalSteps - Sum(steps[..]);
    HandOut(steps, remainders, leftover);
    var slices := InVolume(steps, symbol.stepVolume);
    StepDown(volume, symbol.stepVolume);
    InSteps(steps[..], slices, floors, Wholes(spare, weights, totalWeight), Rests(spare, weights, totalWeight),
            least, symbol.stepVolume, volume);
    r := Some(slices);
  }

  lemma LeftoverFits(spare: int, weights: seq<int>, least: int, floors: seq<int>)
    requires spare >= 0 && |weights| > 0 && Positive(weights) && Sum(weights) > 0
    requires |floors| == |weights|
    requires forall i | 0 <= i < |weights| :: floors[i] == least + Wholes(spare, weights, Sum(weights))[i]
    ensures 0 <= spare + least * |weights| - Sum(floors) < |weights|
  {
    LeftoverIsSmall(spare, weights);
    ShiftedPrefix(Wholes(spare, weights, Sum(weights)), floors, least, |weights|);
  }

  /** The minimum plus the whole part of each ideal share, and what the share leaves over. */
  method WholeShares(spare: int, weights: seq<int>, totalWeight: int, least: int)
    returns (steps: array<int>, remainders: array<int>)
    requires totalWeight > 0
    ensures fresh(steps) && fresh(remainders) && steps != remainders
    ensures steps.Length == |weights| && remainders[..] == Rests(spare, weights, totalWeight)
    ensures forall i | 0 <= i < |weights| :: steps[i] == least + Wholes(spare, weights, totalWeight)[i]
  {
    var n := |weights|;
    steps := new int[n](_ => least);
    remainders := new int[n](_ => 0);
    var index := 0;
    while index < n
      invariant 0 <= index <= n
      invariant forall i | 0 <= i < index :: steps[i] == least + Whole(spare, weights[i], totalWeight)
      invariant forall i | 0 <= i < index :: remainders[i] == Rest(spare, weights[i], totalWeight)
      invariant forall i | index <= i < n :: steps[i] == least
    {
      var whole := spare * weights[index] / totalWeight;
      steps[index] := steps[index] + whole;
      remainders[index] := spare * weights[index] % totalWeight;
      index := index + 1;
    }
  }

  method InVolume(steps: array<int>, step: int) returns (slices: seq<int>)
    ensures |slices| == steps.Length && forall i | 0 <= i < |slices| :: slices[i] == steps[i] * step
  {
    slices := [];
    while |slices| < steps.Length
      invariant |slices| <= steps.Length
      invariant forall i | 0 <= i < |slices| :: slices[i] == steps[i] * step
    {
      slices := slices + [steps[|slices|] * step];
    }
  }

  /** Each count is a floor or one more, and whoever got one more came before whoever did not. */
  predicate HandedOut(steps: seq<int>, floors: seq<int>, rests: seq<int>) {
    && |steps| == |floors| == |rests|
    && (forall i | 0 <= i < |steps| :: steps[i] == floors[i] || steps[i] == floors[i] + 1)
    && (forall i, j | 0 <= i < |steps| && 0 <= j < |steps| && steps[i] == floors[i] + 1 && steps[j] == floors[j] ::
          Before(rests, i, j))
  }

  lemma InSteps(steps: seq<int>, slices: seq<int>, floors: seq<int>, wholes: seq<int>, rests: seq<int>,
                least: int, step: int, volume: int)
    requires step > 0 && HandedOut(steps, floors, rests) && |wholes| == |floors|
    requires forall i | 0 <= i < |floors| :: floors[i] == least + wholes[i]
    requires |slices| == |steps| && forall i | 0 <= i < |steps| :: slices[i] == steps[i] * step
    requires volume == Sum(steps) * step
    ensures Fair(slices, volume, least, step, wholes, rests)
  {
    ScaledPrefix(steps, slices, step, |steps|);
    forall i, j | 0 <= i < |slices| && 0 <= j < |slices|
      && slices[i] == (least + wholes[i] + 1) * step && slices[j] == (least + wholes[j]) * step
      ensures Before(rests, i, j)
    {
      SameFactor(steps[i], least + wholes[i] + 1, step);
      SameFactor(steps[j], least + wholes[j], step);
    }
  }

  /** Gives one step each to the `leftover` targets with the largest remainders. */
  method HandOut(steps: array<int>, remainders: array<int>, leftover: nat)
    requires steps.Length == remainders.Length && steps != remainders && leftover < steps.Length
    modifies steps
    ensures Sum(steps[..]) == old(Sum(steps[..])) + leftover
    ensures HandedOut(steps[..], old(steps[..]), remainders[..])
  {
    var n := steps.Length;
    var taken := new bool[n](_ => false);
    NoneCount(taken[..]);
    var handed := 0;
    while handed < leftover
      invariant 0 <= handed <= leftover
      invariant Count(taken[..]) == handed
      invariant Sum(steps[..]) == old(Sum(steps[..])) + handed
      invariant forall i | 0 <= i < n :: steps[i] == old(steps[i]) + if taken[i] then 1 else 0
      invariant forall i, j | 0 <= i < n && 0 <= j < n && taken[i] && !taken[j] :: Before(remainders[..], i, j)
    {
      var best := FirstFree(taken, remainders);
      ghost var stepsBefore, takenBefore := steps[..], taken[..];
      steps[best] := steps[best] + 1;
      taken[best] := true;
      assert steps[..] == stepsBefore[best := stepsBefore[best] + 1];
      PrefixUpdate(stepsBefore, best, stepsBefore[best] + 1, n);
      assert taken[..] == takenBefore[best := true];
      CountSet(takenBefore, best);
      handed := handed + 1;
    }
  }

  lemma {:induction false} NoneCount(marks: seq<bool>)
    requires forall i | 0 <= i < |marks| :: !marks[i]
    ensures Count(marks) == 0
  {
    if marks != [] {
      NoneCount(marks[1..]);
    }
  }

  lemma {:induction false} ShiftedPrefix(v: seq<int>, w: seq<int>, shift: int, k: nat)
    requires |v| == |w| && k <= |v| && forall i | 0 <= i < |v| :: w[i] == shift + v[i]
    ensures Prefix(w, k) == Prefix(v, k) + shift * k
  {
    if k > 0 {
      ShiftedPrefix(v, w, shift, k - 1);
    }
  }

  function Count(marks: seq<bool>): nat {
    if marks == [] then 0 else Count(marks[1..]) + if marks[0] then 1 else 0
  }

  lemma {:induction false} CountSet(marks: seq<bool>, i: nat)
    requires i < |marks| && !marks[i]
    ensures Count(marks[i := true]) == Count(marks) + 1
  {
    if i > 0 {
      assert marks[i := true][1..] == marks[1..][i - 1 := true];
      CountSet(marks[1..], i - 1);
    } else {
      assert marks[i := true][1..] == marks[1..];
    }
  }

  lemma {:induction false} AllSetCount(marks: seq<bool>)
    requires forall i | 0 <= i < |marks| :: marks[i]
    ensures Count(marks) == |marks|
  {
    if marks != [] {
      AllSetCount(marks[1..]);
    }
  }

  /** The index not yet taken that comes before all others not yet taken. */
  method FirstFree(taken: array<bool>, remainders: array<int>) returns (best: nat)
    requires taken.Length == remainders.Length && Count(taken[..]) < taken.Length
    ensures best < taken.Length && !taken[best]
    ensures forall j | 0 <= j < taken.Length && !taken[j] && j != best :: Before(remainders[..], best, j)
  {
    var found := false;
    best := 0;
    var i := 0;
    while i < taken.Length
      invariant 0 <= i <= taken.Length
      invariant !found ==> forall j | 0 <= j < i :: taken[j]
      invariant found ==> best < i && !taken[best]
      invariant found ==> forall j | 0 <= j < i && !taken[j] && j != best :: Before(remainders[..], best, j)
    {
      if !taken[i] && (!found || remainders[i] > remainders[best]) {
        best, found := i, true;
      }
      i := i + 1;
    }
    if !found {
      AllSetCount(taken[..]);
    }
  }

  // ----- target plans -----------------------------------------------------------------

  predicate Increasing(v: seq<int>) { forall i, j | 0 <= i < j < |v| :: v[i] < v[j] }

  /** A plan the broker can execute: every slice a tradable volume, together the whole volume,
      each booked under its own target number, in order. */
  predicate Executable(plan: TargetPlan, volume: int, symbol: Symbol) {
    && symbol.stepVolume > 0
    && |plan.slices| == |plan.pips| == |plan.ordinals| > 0
    && (forall i | 0 <= i < |plan.slices| ::
          plan.slices[i] > 0 && plan.slices[i] >= symbol.minVolume && plan.slices[i] % symbol.stepVolume == 0)
    && Sum(plan.slices) == volume
    && Increasing(plan.ordinals) && Positive(plan.ordinals)
  }

  lemma SplitIsTradable(slices: seq<int>, volume: int, symbol: Symbol, weights: seq<int>)
    requires Splittable(volume, symbol, weights) && Sum(weights) > 0 && FairSplit(slices, volume, symbol, weights)
    ensures forall i | 0 <= i < |slices| ::
      slices[i] > 0 && slices[i] >= symbol.minVolume && slices[i] % symbol.stepVolume == 0
  {
    var step, least := symbol.stepVolume, MinimumSteps(symbol);
    var spare, t := Spare(volume, symbol, |weights|), Sum(weights);
    StepDown(symbol.minVolume + step - 1, step);
    MulMonotone((symbol.minVolume + step - 1) / step, least, step);
    MulMonotone(1, least, step);
    forall i | 0 <= i < |slices| ensures slices[i] >= least * step && slices[i] % step == 0 {
      WholeNonNeg(spare, weights[i], t);
      StepsAtLeast(slices[i], least, Wholes(spare, weights, t)[i], step);
    }
  }

  lemma StepsAtLeast(slice: int, least: int, whole: int, step: int)
    requires step > 0 && whole >= 0 && (slice == (least + whole) * step || slice == (least + whole + 1) * step)
    ensures slice >= least * step && slice % step == 0
  {
    MulMonotone(least, least + whole, step);
    MulMonotone(least, least + whole + 1, step);
    MultipleMod(least + whole, step);
    MultipleMod(least + whole + 1, step);
  }

  lemma WholeNonNeg(spare: int, w: int, t: int)
    requires spare >= 0 && w > 0 && t > 0
    ensures Whole(spare, w, t) >= 0
  {
    MulNonNeg(spare, w);
  }

  /** How many targets a volume can be closed in. */
  function AvailableExits(volume: int, symbol: Symbol): int
    requires symbol.stepVolume > 0
  {
    volume / symbol.stepVolume / MinimumSteps(symbol)
  }

  predicate Plannable(volume: int, symbol: Symbol, targets: seq<int>, weights: seq<int>) {
    && Aligned(volume, symbol) && |targets| >= 1 && |weights| == |targets|
    && Positive(targets) && Positive(weights)
    && AvailableExits(volume, symbol) >= if |targets| == 1 then 1 else 2
  }

  /** The targets that get a slice: the first ones the volume can pay for, except that two
      exits of three or more targets are the first and the third. */
  function SelectedOrdinals(available: int, count: int): seq<int>
    requires available >= 1 && count >= 1
  {
    var selected := if available < count then available else count;
    if selected == 2 && count >= 3 then [1, 3] else seq(selected, i => i + 1)
  }

  lemma OrdinalsFit(available: int, count: int)
    requires available >= 1 && count >= 1
    ensures var v := SelectedOrdinals(available, count);
      1 <= |v| <= available && Increasing(v) && forall i | 0 <= i < |v| :: 1 <= v[i] <= count
  {
  }

  /** The values at some positions, counted from one. */
  function Picked(v: seq<int>, ordinals: seq<int>): seq<int>
    requires forall i | 0 <= i < |ordinals| :: 1 <= ordinals[i] <= |v|
  {
    seq(|ordinals|, i requires 0 <= i < |ordinals| => v[ordinals[i] - 1])
  }

  method BuildTargetPlan(volume: int, symbol: Symbol, targets: seq<int>, weights: seq<int>)
    returns (r: Option<TargetPlan>)
    ensures r.Some? <==> Plannable(volume, symbol, targets, weights)
    ensures r.Some? ==>
      && Executable(r.value, volume, symbol)
      && r.value.ordinals == SelectedOrdinals(AvailableExits(volume, symbol), |targets|)
      && (forall i | 0 <= i < |r.value.ordinals| :: 1 <= r.value.ordinals[i] <= |targets|)
      && r.value.pips == Picked(targets, r.value.ordinals)
      && SplitBy(r.value.slices, volume, symbol, Picked(weights, r.value.ordinals))
  {
    if volume <= 0 || symbol.stepVolume <= 0 || symbol.minVolume <= 0 || volume % symbol.stepVolume != 0 {
      return None;
    }
    if |targets| < 1 || |weights| != |targets| || (exists i | 0 <= i < |targets| :: targets[i] <= 0)
       || (exists i | 0 <= i < |weights| :: weights[i] <= 0) {
      return None;
    }
    var minimumSteps := MinimumSteps(symbol);
    var totalSteps := volume / symbol.stepVolume;
    var availableExits := totalSteps / minimumSteps;
    if availableExits < (if |targets| == 1 then 1 else 2) {
      return None;
    }
    var ordinals := SelectedOrdinals(availableExits, |targets|);
    OrdinalsFit(availableExits, |targets|);
    var selectedTargets := Picked(targets, ordinals);
    var selectedWeights := Picked(weights, ordinals);
    EnoughSteps(totalSteps, minimumSteps, |ordinals|);
    var slices := SplitWeighted(volume, symbol, selectedWeights);
    SplitIsTradable(slices.value, volume, symbol, selectedWeights);
    r := Some(TargetPlan(slices.value, selectedTargets, ordinals));
  }

  lemma EnoughSteps(total: int, least: int, count: int)
    requires least > 0 && total >= 0 && count <= total / least
    ensures total >= least * count
  {
    StepDown(total, least);
    MulMonotone(count, total / least, least);
  }

  function Evenly(count: nat): seq<int> { seq(count, _ => 1) }

  predicate SplitBy(slices: seq<int>, volume: int, symbol: Symbol, weights: seq<int>) {
    Splittable(volume, symbol, weights) && Sum(weights) > 0 && FairSplit(slices, volume, symbol, weights)
  }

  /** A fixed first slice leaves something that can be split over the other targets. */
  predicate FirstFits(count: nat, volume: int, first: int, symbol: Symbol) {
    count >= 2 && 0 < first < volume && Splittable(volume - first, symbol, Evenly(count - 1))
  }

  /** Overrides the first slice with a fixed tradable volume and spreads the rest evenly exactly
      when that fits, and leaves the plan alone when it does not; either way the plan stays
      executable. */
  method FixFirstLegVolume(plan: TargetPlan, volume: int, first: int, symbol: Symbol) returns (r: TargetPlan)
    requires Executable(plan, volume, symbol)
    requires first > 0 ==> first >= symbol.minVolume && first % symbol.stepVolume == 0
    ensures Executable(r, volume, symbol) && r.ordinals == plan.ordinals && r.pips == plan.pips
    ensures if FirstFits(|plan.slices|, volume, first, symbol)
            then r.slices[0] == first && SplitBy(r.slices[1..], volume - first, symbol, Evenly(|plan.slices| - 1))
            else r == plan
  {
    if |plan.slices| < 2 || first <= 0 || first >= volume {
      return plan;
    }
    var evenly := Evenly(|plan.slices| - 1);
    var rest := SplitWeighted(volume - first, symbol, evenly);
    if rest.None? {
      return plan;
    }
    SplitIsTradable(rest.value, volume - first, symbol, evenly);
    SumPrepend(first, rest.value, |rest.value|);
    r := plan.(slices := [first] + rest.value);
    assert r.slices[1..] == rest.value;
  }

  lemma {:induction false} SumPrepend(x: int, v: seq<int>, k: nat)
    requires k <= |v|
    ensures Prefix([x] + v, k + 1) == x + Prefix(v, k)
  {
    if k > 0 {
      SumPrepend(x, v, k - 1);
    }
  }
}
