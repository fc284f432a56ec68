/** Spreading the take-profit ladder of a group over its entry legs, shallow leg first. */
module TargetAllocation {
  import opened Common
  import opened Arith
  import opened Sums
  import opened VolumePlanner

  /** What one leg books at one target. */
  datatype Piece = Piece(pips: int, ordinal: int, volume: int)

  // Lay the slices and the legs along one line, each as the interval between two of its
  // prefix sums. Slice s runs from Prefix(slices, s) to Prefix(slices, s + 1), leg j from
  // Prefix(legs, j) to Prefix(legs, j + 1).

  /** The length two intervals have in common. */
  function Overlap(lo: int, hi: int, lo': int, hi': int): int {
    Max(0, Min(hi, hi') - Max(lo, lo'))
  }

  function Share(slices: seq<int>, legs: seq<int>, s: nat, j: nat): int
    requires s < |slices| && j < |legs|
  {
    Overlap(Prefix(slices, s), Prefix(slices, s + 1), Prefix(legs, j), Prefix(legs, j + 1))
  }

  /** The books of leg j for the first n slices: its share of each, where it has one. */
  function Pieces(plan: TargetPlan, legs: seq<int>, j: nat, n: nat): seq<Piece>
    requires |plan.slices| == |plan.pips| == |plan.ordinals| && j < |legs| && n <= |plan.slices|
  {
    if n == 0 then []
    else
      var share := Share(plan.slices, legs, n - 1, j);
      Pieces(plan, legs, j, n - 1)
      + if share > 0 then [Piece(plan.pips[n - 1], plan.ordinals[n - 1], share)] else []
  }

  /** What leg j still has when the first `used` units of the line are spent. */
  function Left(legs: seq<int>, used: int, j: nat): int
    requires j < |legs|
  {
    Max(0, Prefix(legs, j + 1) - Max(Prefix(legs, j), used))
  }

  /** The end of a slice falls inside leg j and leaves it less than a tradable volume. */
  predicate LeavesDust(slices: seq<int>, legs: seq<int>, minVolume: int, s: nat, j: nat)
    requires s < |slices| && j < |legs|
  {
    var end := Prefix(slices, s + 1);
    Prefix(legs, j) < end < Prefix(legs, j + 1) && Prefix(legs, j + 1) - end < minVolume
  }

  predicate DustFreeUpTo(slices: seq<int>, legs: seq<int>, minVolume: int, n: nat)
    requires n <= |slices|
  {
    forall s, j | 0 <= s < n && 0 <= j < |legs| :: !LeavesDust(slices, legs, minVolume, s, j)
  }

  predicate DustFree(slices: seq<int>, legs: seq<int>, minVolume: int) {
    DustFreeUpTo(slices, legs, minVolume, |slices|)
  }

  predicate AllocationInput(legs: seq<int>, plan: TargetPlan, symbol: Symbol) {
    && Executable(plan, Sum(legs), symbol)
    && |legs| > 0 && Positive(legs) && forall j | 0 <= j < |legs| :: legs[j] % symbol.stepVolume == 0
  }

  lemma {:induction false} PrefixAligned(v: seq<int>, step: int, k: nat)
    requires step > 0 && k <= |v| && forall i | 0 <= i < |v| :: v[i] % step == 0
    ensures Prefix(v, k) % step == 0
  {
    if k > 0 {
      PrefixAligned(v, step, k - 1);
      SumOfMultiples(Prefix(v, k - 1), v[k - 1], step);
    }
  }

  /** The state of the allocation on the line: `used` units spent, from the front. */
  predicate SpentFront(remaining: seq<int>, legs: seq<int>, used: int) {
    && |remaining| == |legs| && 0 <= used <= Sum(legs)
    && forall j | 0 <= j < |legs| :: remaining[j] == Left(legs, used, j)
  }

  /** The allocation while slice s is being booked: what the legs have left, what they have
      booked, and how much of the slice is still needed. `used` is what is spent of the line. */
  datatype Booking = Booking(remaining: seq<int>, books: seq<seq<Piece>>, used: int, need: int)

  /** What a leg contributes: as much as is needed in whole steps, or everything when less
      than a tradable volume would stay behind. */
  function Take(need: int, left: int, symbol: Symbol): int
    requires symbol.stepVolume > 0
  {
    var take := Min(need, left) / symbol.stepVolume * symbol.stepVolume;
    if 0 < left - take < symbol.minVolume then left else take
  }

  function AfterLeg(b: Booking, plan: TargetPlan, symbol: Symbol, s: nat, leg: nat): Booking
    requires symbol.stepVolume > 0 && |plan.slices| == |plan.pips| == |plan.ordinals| && s < |plan.slices|
    requires leg < |b.remaining| == |b.books|
  {
    if b.remaining[leg] <= 0 then b else
    var take := Take(b.need, b.remaining[leg], symbol);
    Booking(b.remaining[leg := b.remaining[leg] - take],
            b.books[leg := b.books[leg] + [Piece(plan.pips[s], plan.ordinals[s], take)]],
            b.used + take,
            Max(0, b.need - take))
  }

  /** Holds whatever the earlier slices did; `start` is what was spent before slice s. */
  predicate Walking(b: Booking, legs: seq<int>, symbol: Symbol, slice: int, start: int, leg: nat)
    requires leg <= |legs|
  {
    && symbol.stepVolume > 0 && SpentFront(b.remaining, legs, b.used) && |b.books| == |legs|
    && b.used % symbol.stepVolume == 0 && b.need % symbol.stepVolume == 0 && b.need >= 0
    && (b.need > 0 ==> b.used + b.need == start + slice && b.used >= Prefix(legs, leg))
    && (b.need == 0 ==> start + slice <= b.used <= Prefix(legs, leg))
  }

  predicate LegsBooked(b: Booking, legs: seq<int>, plan: TargetPlan, s: nat, leg: nat)
    requires |plan.slices| == |plan.pips| == |plan.ordinals| && s < |plan.slices|
  {
    && |b.books| == |legs|
    && (forall j | 0 <= j < leg && j < |legs| :: b.books[j] == Pieces(plan, legs, j, s + 1))
    && (forall j | leg <= j < |legs| :: b.books[j] == Pieces(plan, legs, j, s))
  }

  predicate NoDustBefore(legs: seq<int>, plan: TargetPlan, symbol: Symbol, s: nat, leg: nat)
    requires s < |plan.slices| && leg <= |legs|
  {
    forall j | 0 <= j < leg :: !LeavesDust(plan.slices, legs, symbol.minVolume, s, j)
  }

  /** Holds when no earlier slice was overfilled: this one is either on track or has just been
      overfilled because its end left dust. */
  predicate OnTrack(b: Booking, legs: seq<int>, plan: TargetPlan, symbol: Symbol, s: nat, leg: nat)
    requires |plan.slices| == |plan.pips| == |plan.ordinals| && s < |plan.slices| && leg <= |legs|
  {
    if b.need == 0 && b.used > Prefix(plan.slices, s + 1)
    then !NoDustBefore(legs, plan, symbol, s, leg)
    else
      && NoDustBefore(legs, plan, symbol, s, leg) && LegsBooked(b, legs, plan, s, leg)
      && (b.need > 0 ==> b.used >= Prefix(plan.slices, s)
                         && (b.used == Prefix(plan.slices, s) || b.used == Prefix(legs, leg)))
  }

  lemma SpendFront(remaining: seq<int>, legs: seq<int>, used: int, leg: nat, take: int)
    requires Positive(legs) && SpentFront(remaining, legs, used) && leg < |legs|
    requires Prefix(legs, leg) <= used < Prefix(legs, leg + 1) && 0 <= take <= remaining[leg]
    ensures SpentFront(remaining[leg := remaining[leg] - take], legs, used + take)
  {
    var after := remaining[leg := remaining[leg] - take];
    PrefixMonotone(legs, leg + 1, |legs|);
    forall j | 0 <= j < |legs| ensures after[j] == Left(legs, used + take, j) {
      if j < leg { PrefixMonotone(legs, j + 1, leg); }
      if j > leg { PrefixMonotone(legs, leg + 1, j); }
    }
  }

  lemma TakeSteps(need: int, left: int, symbol: Symbol)
    requires symbol.stepVolume > 0 && need > 0 && left > 0
    requires need % symbol.stepVolume == 0 && left % symbol.stepVolume == 0
    ensures Take(need, left, symbol) == if 0 < left - need < symbol.minVolume then left else Min(need, left)
    ensures Take(need, left, symbol) % symbol.stepVolume == 0
  {
    StepDown(need, symbol.stepVolume);
    StepDown(left, symbol.stepVolume);
  }

  lemma LegLeft(legs: seq<int>, used: int, leg: nat, step: int)
    requires step > 0 && leg < |legs| && Positive(legs) && (forall j | 0 <= j < |legs| :: legs[j] % step == 0)
    requires used % step == 0 && used >= Prefix(legs, leg)
    ensures Left(legs, used, leg) == Max(0, Prefix(legs, leg + 1) - used) && Left(legs, used, leg) % step == 0
  {
    PrefixAligned(legs, step, leg + 1);
    RestOfMultiple(Prefix(legs, leg + 1), used, step);
  }

  lemma RestOfMultiple(a: int, b: int, step: int)
    requires step > 0 && a % step == 0 && b % step == 0
    ensures Max(0, a - b) % step == 0
  {
    SumOfMultiples(a, b, step);
  }

  lemma WalkLeg(b: Booking, legs: seq<int>, plan: TargetPlan, symbol: Symbol, s: nat, start: int, leg: nat)
    requires AllocationInput(legs, plan, symbol) && s < |plan.slices| && leg < |legs| && b.need > 0
    requires Walking(b, legs, symbol, plan.slices[s], start, leg)
    ensures Walking(AfterLeg(b, plan, symbol, s, leg), legs, symbol, plan.slices[s], start, leg + 1)
  {
    LegLeft(legs, b.used, leg, symbol.stepVolume);
    if b.remaining[leg] > 0 {
      var take := Take(b.need, b.remaining[leg], symbol);
      TakeSteps(b.need, b.remaining[leg], symbol);
      SpendFront(b.remaining, legs, b.used, leg, take);
      SumOfMultiples(b.used, take, symbol.stepVolume);
      SumOfMultiples(b.need, take, symbol.stepVolume);
    }
  }

  /** The common part of slice s and leg j, once the walk stands at `used`. */
  lemma ShareFrom(slices: seq<int>, legs: seq<int>, s: nat, j: nat, used: int)
    requires s < |slices| && j < |legs| && slices[s] > 0 && legs[j] > 0
    requires Prefix(slices, s) <= used < Prefix(slices, s + 1) && Prefix(legs, j) <= used
    requires used == Prefix(slices, s) || used == Prefix(legs, j)
    ensures Share(slices, legs, s, j) == Max(0, Min(Prefix(slices, s + 1), Prefix(legs, j + 1)) - used)
  {
  }

  /** Whether the take overfills the slice is a question about the line. */
  lemma TakeOnTheLine(b: Booking, legs: seq<int>, plan: TargetPlan, symbol: Symbol, s: nat, leg: nat)
    requires AllocationInput(legs, plan, symbol) && s < |plan.slices| && leg < |legs| && b.need > 0
    requires Walking(b, legs, symbol, plan.slices[s], Prefix(plan.slices, s), leg)
    requires OnTrack(b, legs, plan, symbol, s, leg)
    ensures b.used + b.need == Prefix(plan.slices, s + 1)
    ensures b.remaining[leg] <= 0 ==> Share(plan.slices, legs, s, leg) == 0
    ensures b.remaining[leg] <= 0 ==> !LeavesDust(plan.slices, legs, symbol.minVolume, s, leg)
    ensures b.remaining[leg] > 0 ==>
      var take := Take(b.need, b.remaining[leg], symbol);
      && b.remaining[leg] == Prefix(legs, leg + 1) - b.used
      && (if LeavesDust(plan.slices, legs, symbol.minVolume, s, leg) then take == b.remaining[leg] > b.need
          else take == Min(b.need, b.remaining[leg]) == Share(plan.slices, legs, s, leg))
  {
    LegLeft(legs, b.used, leg, symbol.stepVolume);
    ShareFrom(plan.slices, legs, s, leg, b.used);
    if b.remaining[leg] > 0 {
      TakeSteps(b.need, b.remaining[leg], symbol);
    }
  }

  lemma BookLeg(b: Booking, legs: seq<int>, plan: TargetPlan, symbol: Symbol, s: nat, leg: nat)
    requires AllocationInput(legs, plan, symbol) && s < |plan.slices| && leg < |legs|
    requires LegsBooked(b, legs, plan, s, leg) && |b.remaining| == |legs|
    requires if b.remaining[leg] <= 0 then Share(plan.slices, legs, s, leg) == 0
             else Take(b.need, b.remaining[leg], symbol) == Share(plan.slices, legs, s, leg) > 0
    ensures LegsBooked(AfterLeg(b, plan, symbol, s, leg), legs, plan, s, leg + 1)
  {
  }

  /** A leg on track books exactly its share. */
  lemma TrackLeg(b: Booking, legs: seq<int>, plan: TargetPlan, symbol: Symbol, s: nat, leg: nat)
    requires AllocationInput(legs, plan, symbol) && s < |plan.slices| && leg < |legs| && b.need > 0
    requires Walking(b, legs, symbol, plan.slices[s], Prefix(plan.slices, s), leg)
    requires OnTrack(b, legs, plan, symbol, s, leg)
    ensures OnTrack(AfterLeg(b, plan, symbol, s, leg), legs, plan, symbol, s, leg + 1)
  {
    TakeOnTheLine(b, legs, plan, symbol, s, leg);
    if LeavesDust(plan.slices, legs, symbol.minVolume, s, leg) {
      assert !NoDustBefore(legs, plan, symbol, s, leg + 1);
    } else {
      BookLeg(b, legs, plan, symbol, s, leg);
    }
  }

  /** A slice met before the last leg leaves the later legs untouched. */
  lemma FinishSlice(b: Booking, legs: seq<int>, plan: TargetPlan, symbol: Symbol, s: nat, leg: nat)
    requires AllocationInput(legs, plan, symbol) && s < |plan.slices| && leg <= |legs| && b.need == 0
    requires Walking(b, legs, symbol, plan.slices[s], Prefix(plan.slices, s), leg)
    requires OnTrack(b, legs, plan, symbol, s, leg)
    ensures b.used == Prefix(plan.slices, s + 1) <==> NoDustBefore(legs, plan, symbol, s, |legs|)
    ensures b.used == Prefix(plan.slices, s + 1) ==> LegsBooked(b, legs, plan, s, |legs|)
  {
    if b.used == Prefix(plan.slices, s + 1) {
      forall j | leg <= j < |legs|
        ensures !LeavesDust(plan.slices, legs, symbol.minVolume, s, j) && Share(plan.slices, legs, s, j) == 0
      {
        PrefixMonotone(legs, leg, j);
      }
    }
  }

  predicate BooksSoFar(books: seq<seq<Piece>>, legs: seq<int>, plan: TargetPlan, n: nat)
    requires |plan.slices| == |plan.pips| == |plan.ordinals| && n <= |plan.slices|
  {
    |books| == |legs| && forall j | 0 <= j < |legs| :: books[j] == Pieces(plan, legs, j, n)
  }

  /** Books slice s, walking the legs from the shallow one. As long as no earlier slice was
      overfilled, every leg books exactly its share, unless the end of this slice leaves dust:
      then it is overfilled. Answers how much could not be booked. */
  method BookSlice(remaining: array<int>, books: array<seq<Piece>>, legs: seq<int>, plan: TargetPlan,
                   symbol: Symbol, s: nat, ghost start: int)
    returns (need: int, ghost used: int)
    requires AllocationInput(legs, plan, symbol) && s < |plan.slices|
    requires remaining.Length == books.Length == |legs|
    requires SpentFront(remaining[..], legs, start) && start % symbol.stepVolume == 0
    requires start >= Prefix(plan.slices, s)
    requires start == Prefix(plan.slices, s) ==> BooksSoFar(books[..], legs, plan, s)
    modifies remaining, books
    ensures need > 0 <==> Sum(legs) - start < plan.slices[s]
    ensures need <= 0 ==>
      && SpentFront(remaining[..], legs, used) && used % symbol.stepVolume == 0
      && used >= start + plan.slices[s]
    ensures need <= 0 && start == Prefix(plan.slices, s) ==>
      && (used == Prefix(plan.slices, s + 1) <==> NoDustBefore(legs, plan, symbol, s, |legs|))
      && (used == Prefix(plan.slices, s + 1) ==> BooksSoFar(books[..], legs, plan, s + 1))
  {
    need := plan.slices[s];
    ghost var b := Booking(remaining[..], books[..], start, need);
    var leg := 0;
    while leg < remaining.Length && need > 0
      invariant 0 <= leg <= |legs|
      invariant b.remaining == remaining[..] && b.books == books[..] && b.need == need
      invariant Walking(b, legs, symbol, plan.slices[s], start, leg)
      invariant start == Prefix(plan.slices, s) ==> OnTrack(b, legs, plan, symbol, s, leg)
    {
      WalkLeg(b, legs, plan, symbol, s, start, leg);
      if start == Prefix(plan.slices, s) {
        TrackLeg(b, legs, plan, symbol, s, leg);
      }
      b := AfterLeg(b, plan, symbol, s, leg);
      if remaining[leg] > 0 {
        var take := Min(need, remaining[leg]);
        take := take / symbol.stepVolume * symbol.stepVolume;
        var after := remaining[leg] - take;
        if 0 < after < symbol.minVolume {
          take := remaining[leg];
        }
        books[leg] := books[leg] + [Piece(plan.pips[s], plan.ordinals[s], take)];
        remaining[leg] := remaining[leg] - take;
        need := need - take;
        if need < 0 {
          need := 0;
        }
      }
      leg := leg + 1;
    }
    used := b.used;
    if need <= 0 && start == Prefix(plan.slices, s) {
      FinishSlice(b, legs, plan, symbol, s, leg);
    }
  }

  function PlanOf(pieces: seq<Piece>): TargetPlan {
    TargetPlan(seq(|pieces|, i requires 0 <= i < |pieces| => pieces[i].volume),
               seq(|pieces|, i requires 0 <= i < |pieces| => pieces[i].pips),
               seq(|pieces|, i requires 0 <= i < |pieces| => pieces[i].ordinal))
  }

  /** What leg j books of the whole ladder. */
  function LegPlan(plan: TargetPlan, legs: seq<int>, j: nat): TargetPlan
    requires |plan.slices| == |plan.pips| == |plan.ordinals| && j < |legs|
  {
    PlanOf(Pieces(plan, legs, j, |plan.slices|))
  }

  /** One more slice leaves no dust on any leg. */
  lemma DustFreeStep(slices: seq<int>, legs: seq<int>, minVolume: int, s: nat)
    requires s < |slices|
    ensures DustFreeUpTo(slices, legs, minVolume, s + 1) <==>
      DustFreeUpTo(slices, legs, minVolume, s) && forall j | 0 <= j < |legs| ::
        !LeavesDust(slices, legs, minVolume, s, j)
  {
  }

  /** The ladder booked up to slice s: spent from the front, in full, and exactly so as long
      as no slice left dust. */
  predicate LadderSoFar(remaining: seq<int>, books: seq<seq<Piece>>, legs: seq<int>, plan: TargetPlan, symbol: Symbol,
                        s: nat, used: int)
    requires AllocationInput(legs, plan, symbol) && s <= |plan.slices|
  {
    && SpentFront(remaining, legs, used) && used % symbol.stepVolume == 0
    && used >= Prefix(plan.slices, s)
    && (used == Prefix(plan.slices, s) <==> DustFreeUpTo(plan.slices, legs, symbol.minVolume, s))
    && (used == Prefix(plan.slices, s) ==> BooksSoFar(books, legs, plan, s))
  }

  /** A slice can only come up short after an earlier one took too much. */
  lemma ShortMeansDust(remaining: seq<int>, books: seq<seq<Piece>>, legs: seq<int>, plan: TargetPlan, symbol: Symbol,
                       s: nat, used: int)
    requires AllocationInput(legs, plan, symbol) && s < |plan.slices|
    requires LadderSoFar(remaining, books, legs, plan, symbol, s, used)
    requires Sum(legs) - used < plan.slices[s]
    ensures !DustFree(plan.slices, legs, symbol.minVolume)
  {
    PrefixMonotone(plan.slices, s + 1, |plan.slices|);
  }

  lemma LadderStart(remaining: seq<int>, books: seq<seq<Piece>>, legs: seq<int>, plan: TargetPlan, symbol: Symbol)
    requires AllocationInput(legs, plan, symbol) && remaining == legs
    requires |books| == |legs| && forall j | 0 <= j < |legs| :: books[j] == []
    ensures LadderSoFar(remaining, books, legs, plan, symbol, 0, 0)
  {
    StartFull(legs, remaining);
  }

  lemma LadderDone(remaining: seq<int>, books: seq<seq<Piece>>, legs: seq<int>, plan: TargetPlan, symbol: Symbol,
                   used: int)
    requires AllocationInput(legs, plan, symbol)
    requires LadderSoFar(remaining, books, legs, plan, symbol, |plan.slices|, used)
    ensures DustFree(plan.slices, legs, symbol.minVolume) && BooksSoFar(books, legs, plan, |plan.slices|)
    ensures forall j | 0 <= j < |legs| :: remaining[j] == 0
  {
    forall j | 0 <= j < |legs| ensures Left(legs, Sum(legs), j) == 0 {
      PrefixMonotone(legs, j + 1, |legs|);
    }
  }

  lemma LadderStep(remaining: seq<int>, books: seq<seq<Piece>>, legs: seq<int>, plan: TargetPlan, symbol: Symbol,
                   s: nat, start: int, used: int)
    requires AllocationInput(legs, plan, symbol) && s < |plan.slices|
    requires start >= Prefix(plan.slices, s)
    requires start == Prefix(plan.slices, s) <==> DustFreeUpTo(plan.slices, legs, symbol.minVolume, s)
    requires SpentFront(remaining, legs, used) && used % symbol.stepVolume == 0 && used >= start + plan.slices[s]
    requires start == Prefix(plan.slices, s) ==>
      && (used == Prefix(plan.slices, s + 1) <==> NoDustBefore(legs, plan, symbol, s, |legs|))
      && (used == Prefix(plan.slices, s + 1) ==> BooksSoFar(books, legs, plan, s + 1))
    ensures LadderSoFar(remaining, books, legs, plan, symbol, s + 1, used)
  {
    DustFreeStep(plan.slices, legs, symbol.minVolume, s);
  }

  /** One more slice of the ladder, unless it cannot be booked in full. */
  method BookNext(remaining: array<int>, books: array<seq<Piece>>, legs: seq<int>, plan: TargetPlan,
                  symbol: Symbol, s: nat, ghost start: int)
    returns (ok: bool, ghost used: int)
    requires AllocationInput(legs, plan, symbol) && s < |plan.slices|
    requires remaining.Length == books.Length == |legs|
    requires LadderSoFar(remaining[..], books[..], legs, plan, symbol, s, start)
    modifies remaining, books
    ensures ok ==> LadderSoFar(remaining[..], books[..], legs, plan, symbol, s + 1, used)
    ensures !ok ==> !DustFree(plan.slices, legs, symbol.minVolume)
  {
    ghost var left, booked := remaining[..], books[..];
    var need;
    need, used := BookSlice(remaining, books, legs, plan, symbol, s, start);
    if need > 0 {
      ShortMeansDust(left, booked, legs, plan, symbol, s, start);
    } else {
      LadderStep(remaining[..], books[..], legs, plan, symbol, s, start, used);
    }
    ok := need <= 0;
  }

  /** Books all slices in turn and stops at the first one that cannot be booked in full. */
  method BookLadder(remaining: array<int>, books: array<seq<Piece>>, legs: seq<int>, plan: TargetPlan, symbol: Symbol)
    returns (ok: bool)
    requires AllocationInput(legs, plan, symbol) && remaining.Length == books.Length == |legs|
    requires remaining[..] == legs && forall j | 0 <= j < |legs| :: books[j] == []
    modifies remaining, books
    ensures ok <==> DustFree(plan.slices, legs, symbol.minVolume)
    ensures ok ==> BooksSoFar(books[..], legs, plan, |plan.slices|) && forall j | 0 <= j < |legs| :: remaining[j] == 0
  {
    ghost var used := 0;
    LadderStart(remaining[..], books[..], legs, plan, symbol);
    var s := 0;
    while s < |plan.slices|
      invariant 0 <= s <= |plan.slices|
      invariant LadderSoFar(remaining[..], books[..], legs, plan, symbol, s, used)
    {
      ok, used := BookNext(remaining, books, legs, plan, symbol, s, used);
      if !ok {
        return;
      }
      s := s + 1;
    }
    LadderDone(remaining[..], books[..], legs, plan, symbol, used);
    ok := true;
  }

  /** Every leg books its share of every slice; the shallow leg keeps a runner. */
  predicate Allocated(plans: seq<TargetPlan>, plan: TargetPlan, legs: seq<int>, symbol: Symbol)
    requires |plan.slices| == |plan.pips| == |plan.ordinals|
  {
    && |plans| == |legs| > 0
    && plans[0] == WithRunner(LegPlan(plan, legs, 0), plan, symbol)
    && forall j | 0 < j < |legs| :: plans[j] == LegPlan(plan, legs, j)
  }

  /** The allocation succeeds exactly when no slice ends just before the end of a leg. Then
      every leg books its share of every slice and nothing is left over; only the shallow leg
      is afterwards asked to keep a runner. A pass over what the legs still have after the last
      slice, or a check of each leg's total, would find nothing to do. */
  method AllocateAcrossLegs(legs: seq<int>, plan: TargetPlan, symbol: Symbol) returns (r: Option<seq<TargetPlan>>)
    requires AllocationInput(legs, plan, symbol)
    ensures r.Some? <==> |legs| == 1 || DustFree(plan.slices, legs, symbol.minVolume)
    ensures |legs| == 1 ==> r == Some([plan])
    ensures r.Some? && |legs| > 1 ==> Allocated(r.value, plan, legs, symbol)
  {
    if |legs| == 1 {
      return Some([plan]);
    }
    var n := |legs|;
    var remaining := new int[n](j requires 0 <= j < n => legs[j]);
    var books := new seq<Piece>[n](_ => []);
    assert remaining[..] == legs;
    var ok := BookLadder(remaining, books, legs, plan, symbol);
    if !ok {
      return None;
    }
    var plans := [];
    while |plans| < n
      invariant |plans| <= n
      invariant forall j | 0 <= j < |plans| :: plans[j] == LegPlan(plan, legs, j)
    {
      assert books[..][|plans|] == Pieces(plan, legs, |plans|, |plan.slices|);
      plans := plans + [PlanOf(books[|plans|])];
    }
    var runner := ReserveRunner(plans[0], plan, symbol);
    r := Some(plans[0 := runner]);
  }

  const FIRST_LEG_THRESHOLD_LOTS := 0.13
  const FIRST_LEG_LOTS := 0.05

  /** The group is large enough for a fixed first slice, and it fits. */
  predicate FixesFirst(volume: int, count: nat, symbol: Symbol)
    requires symbol.lotSize > 0
  {
    && volume as real / symbol.lotSize as real > FIRST_LEG_THRESHOLD_LOTS
    && FirstFits(count, volume, VolumeForLots(FIRST_LEG_LOTS, symbol), symbol)
  }

  /** The ladder of a manual group. A group above 0.13 lots books a fixed 0.05 lots first and the
      rest evenly, if that fits; any other group is split by its weights. */
  method BuildGroupPlan(volume: int, symbol: Symbol, targets: seq<int>, weights: seq<int>)
    returns (r: Option<TargetPlan>)
    requires symbol.lotSize > 0
    ensures r.Some? <==> Plannable(volume, symbol, targets, weights)
    ensures r.Some? ==>
      && Executable(r.value, volume, symbol)
      && r.value.ordinals == SelectedOrdinals(AvailableExits(volume, symbol), |targets|)
      && (forall i | 0 <= i < |r.value.ordinals| :: 1 <= r.value.ordinals[i] <= |targets|)
      && r.value.pips == Picked(targets, r.value.ordinals)
    ensures r.Some? ==>
      var plan, first := r.value, VolumeForLots(FIRST_LEG_LOTS, symbol);
      if FixesFirst(volume, |plan.slices|, symbol)
      then plan.slices[0] == first && SplitBy(plan.slices[1..], volume - first, symbol, Evenly(|plan.slices| - 1))
      else SplitBy(plan.slices, volume, symbol, Picked(weights, plan.ordinals))
  {
    r := BuildTargetPlan(volume, symbol, targets, weights);
    if r.Some? && volume as real / symbol.lotSize as real > FIRST_LEG_THRESHOLD_LOTS {
      var fixedFirstLeg := VolumeForLots(FIRST_LEG_LOTS, symbol);
      VolumeForLotsRoundsDown(FIRST_LEG_LOTS, symbol);
      var plan := FixFirstLegVolume(r.value, volume, fixedFirstLeg, symbol);
      r := Some(plan);
    }
  }

  lemma StartFull(legs: seq<int>, remaining: seq<int>)
    requires Positive(legs) && remaining == legs
    ensures SpentFront(remaining, legs, 0)
  {
    PrefixMonotone(legs, 0, |legs|);
    forall j | 0 <= j < |legs| ensures remaining[j] == Left(legs, 0, j) {
      PrefixMonotone(legs, 0, j);
    }
  }

  // ----- the shallow runner -----------------------------------------------------------

  /** A tradable volume, rounded up to the step. */
  function ReserveVolume(symbol: Symbol): int
    requires symbol.stepVolume > 0
  {
    (symbol.minVolume + symbol.stepVolume - 1) / symbol.stepVolume * symbol.stepVolume
  }

  /** The last slice before position k of at least `least`, or -1. */
  function LastAtLeast(slices: seq<int>, least: int, k: nat): (donor: int)
    requires k <= |slices|
    ensures -1 <= donor < k
    ensures donor >= 0 ==> slices[donor] >= least
    ensures forall i | donor < i < k :: slices[i] < least
  {
    if k == 0 then -1
    else if slices[k - 1] >= least then k - 1
    else LastAtLeast(slices, least, k - 1)
  }

  function RunnerDonor(shallow: TargetPlan, plan: TargetPlan, symbol: Symbol): int {
    if |plan.ordinals| < 4 || symbol.stepVolume <= 0 || symbol.minVolume <= 0
       || plan.ordinals[|plan.ordinals| - 1] in shallow.ordinals then -1
    else LastAtLeast(shallow.slices, 2 * ReserveVolume(symbol), |shallow.slices|)
  }

  function WithRunner(shallow: TargetPlan, plan: TargetPlan, symbol: Symbol): TargetPlan
    requires |plan.pips| == |plan.ordinals|
  {
    var donor := RunnerDonor(shallow, plan, symbol);
    if donor < 0 then shallow else
    var reserve := ReserveVolume(symbol);
    TargetPlan(shallow.slices[donor := shallow.slices[donor] - reserve] + [reserve],
               shallow.pips + [plan.pips[|plan.pips| - 1]],
               shallow.ordinals + [plan.ordinals[|plan.ordinals| - 1]])
  }

  method ReserveRunner(shallow: TargetPlan, plan: TargetPlan, symbol: Symbol) returns (r: TargetPlan)
    requires |plan.pips| == |plan.ordinals|
    ensures r == WithRunner(shallow, plan, symbol)
  {
    if |plan.ordinals| < 4 || symbol.stepVolume <= 0 || symbol.minVolume <= 0 {
      return shallow;
    }
    var finalOrdinal := plan.ordinals[|plan.ordinals| - 1];
    if finalOrdinal in shallow.ordinals {
      return shallow;
    }
    var reserve := (symbol.minVolume + symbol.stepVolume - 1) / symbol.stepVolume * symbol.stepVolume;
    var donor := -1;
    var index := |shallow.slices| - 1;
    while index >= 0 && donor < 0
      invariant -1 <= index < |shallow.slices|
      invariant donor < 0 ==> donor == -1 && LastAtLeast(shallow.slices, 2 * reserve, |shallow.slices|)
                                            == LastAtLeast(shallow.slices, 2 * reserve, index + 1)
      invariant donor >= 0 ==> donor == LastAtLeast(shallow.slices, 2 * reserve, |shallow.slices|)
      decreases if donor < 0 then index + 1 else 0
    {
      if shallow.slices[index] >= reserve * 2 {
        donor := index;
      } else {
        index := index - 1;
      }
    }
    if donor < 0 {
      return shallow;
    }
    var slices := shallow.slices[donor := shallow.slices[donor] - reserve];
    r := TargetPlan(slices + [reserve], shallow.pips + [plan.pips[|plan.pips| - 1]],
                    shallow.ordinals + [finalOrdinal]);
  }

  // ----- what an allocation means -----------------------------------------------------

  lemma OverlapExtends(a: int, b: int, lo: int, hi: int)
    requires 0 <= a <= b && 0 <= lo <= hi
    ensures Overlap(0, b, lo, hi) == Overlap(0, a, lo, hi) + Overlap(a, b, lo, hi)
  {
  }

  /** The shares of the first n slices in one leg add up to the part of the leg they cover. */
  lemma {:induction false} SharesOfALeg(plan: TargetPlan, legs: seq<int>, j: nat, n: nat)
    requires |plan.slices| == |plan.pips| == |plan.ordinals| && Positive(plan.slices) && Positive(legs)
    requires j < |legs| && n <= |plan.slices|
    ensures Sum(PlanOf(Pieces(plan, legs, j, n)).slices)
            == Overlap(0, Prefix(plan.slices, n), Prefix(legs, j), Prefix(legs, j + 1))
  {
    PrefixMonotone(legs, 0, j);
    if n > 0 {
      SharesOfALeg(plan, legs, j, n - 1);
      PrefixMonotone(plan.slices, 0, n - 1);
      OverlapExtends(Prefix(plan.slices, n - 1), Prefix(plan.slices, n), Prefix(legs, j), Prefix(legs, j + 1));
      var before, share := PlanOf(Pieces(plan, legs, j, n - 1)).slices, Share(plan.slices, legs, n - 1, j);
      var after := PlanOf(Pieces(plan, legs, j, n)).slices;
      if share > 0 {
        assert after == before + [share];
        SumAppend(before, share);
      } else {
        assert after == before;
      }
    }
  }

  predicate AmongFirst(ordinals: seq<int>, n: nat, ordinal: int)
    requires n <= |ordinals|
  {
    exists s | 0 <= s < n :: ordinals[s] == ordinal
  }

  /** Pieces are positive and carry the first n target numbers in increasing order. */
  predicate InOrder(pieces: seq<Piece>, ordinals: seq<int>, n: nat)
    requires n <= |ordinals|
  {
    && (forall i | 0 <= i < |pieces| :: pieces[i].volume > 0 && AmongFirst(ordinals, n, pieces[i].ordinal))
    && (forall i, k | 0 <= i < k < |pieces| :: pieces[i].ordinal < pieces[k].ordinal)
  }

  lemma InOrderGrows(pieces: seq<Piece>, ordinals: seq<int>, n: nat, piece: Piece)
    requires n < |ordinals| && Increasing(ordinals) && InOrder(pieces, ordinals, n)
    requires piece.volume > 0 && piece.ordinal == ordinals[n]
    ensures InOrder(pieces, ordinals, n + 1) && InOrder(pieces + [piece], ordinals, n + 1)
  {
    forall i | 0 <= i < |pieces|
      ensures AmongFirst(ordinals, n + 1, pieces[i].ordinal) && pieces[i].ordinal < ordinals[n]
    {
      var s :| 0 <= s < n && ordinals[s] == pieces[i].ordinal;
    }
    assert AmongFirst(ordinals, n + 1, ordinals[n]);
  }

  lemma {:induction false} PiecesInOrder(plan: TargetPlan, legs: seq<int>, j: nat, n: nat)
    requires |plan.slices| == |plan.pips| == |plan.ordinals| && Increasing(plan.ordinals)
    requires j < |legs| && n <= |plan.slices|
    ensures InOrder(Pieces(plan, legs, j, n), plan.ordinals, n)
  {
    if n > 0 {
      PiecesInOrder(plan, legs, j, n - 1);
      var share := Share(plan.slices, legs, n - 1, j);
      InOrderGrows(Pieces(plan, legs, j, n - 1), plan.ordinals, n - 1,
                   Piece(plan.pips[n - 1], plan.ordinals[n - 1], Max(1, share)));
      assert Pieces(plan, legs, j, n - 1) + [] == Pieces(plan, legs, j, n - 1);
    }
  }

  /** Each leg's plan spends exactly the leg's entry volume, in positive slices, under strictly
      increasing target numbers. */
  lemma LegPlanSpendsTheLeg(plan: TargetPlan, legs: seq<int>, symbol: Symbol, j: nat)
    requires AllocationInput(legs, plan, symbol) && j < |legs|
    ensures var leg := LegPlan(plan, legs, j);
      && Positive(leg.slices) && Sum(leg.slices) == legs[j]
      && Increasing(leg.ordinals) && |leg.slices| == |leg.ordinals| > 0
      && forall i | 0 <= i < |leg.ordinals| :: leg.ordinals[i] in plan.ordinals
  {
    SharesOfALeg(plan, legs, j, |plan.slices|);
    PiecesInOrder(plan, legs, j, |plan.slices|);
    PrefixMonotone(legs, 0, j);
    PrefixMonotone(legs, j + 1, |legs|);
  }

  function ShareRow(slices: seq<int>, legs: seq<int>, s: nat): seq<int>
    requires s < |slices|
  {
    seq(|legs|, j requires 0 <= j < |legs| => Share(slices, legs, s, j))
  }

  lemma {:induction false} SharesOfASlice(slices: seq<int>, legs: seq<int>, s: nat, k: nat)
    requires s < |slices| && Positive(slices) && Positive(legs) && k <= |legs|
    ensures Prefix(ShareRow(slices, legs, s), k)
            == Overlap(Prefix(slices, s), Prefix(slices, s + 1), 0, Prefix(legs, k))
  {
    PrefixMonotone(slices, 0, s);
    if k > 0 {
      SharesOfASlice(slices, legs, s, k - 1);
      PrefixMonotone(legs, 0, k - 1);
    }
  }

  /** Every slice is met exactly: the legs' shares of it add up to it. */
  lemma SliceIsMetExactly(plan: TargetPlan, legs: seq<int>, symbol: Symbol, s: nat)
    requires AllocationInput(legs, plan, symbol) && s < |plan.slices|
    ensures Sum(ShareRow(plan.slices, legs, s)) == plan.slices[s]
  {
    SharesOfASlice(plan.slices, legs, s, |legs|);
    PrefixMonotone(plan.slices, 0, s);
    PrefixMonotone(plan.slices, s + 1, |plan.slices|);
  }

  /** The volume a plan books at one target number. */
  function VolumeAt(plan: TargetPlan, ordinal: int, n: nat): int
    requires n <= |plan.slices| == |plan.ordinals|
  {
    if n == 0 then 0
    else VolumeAt(plan, ordinal, n - 1) + if plan.ordinals[n - 1] == ordinal then plan.slices[n - 1] else 0
  }

  lemma {:induction false} VolumeAtUpdate(plan: TargetPlan, plan': TargetPlan, d: nat, moved: int, ordinal: int, n: nat)
    requires n <= |plan.slices| == |plan.ordinals| && |plan'.slices| == |plan'.ordinals| >= |plan.slices|
    requires d < |plan.slices| && forall i | 0 <= i < |plan.slices| ::
               plan'.ordinals[i] == plan.ordinals[i] && plan'.slices[i] == plan.slices[i] - if i == d then moved else 0
    ensures VolumeAt(plan', ordinal, n) ==
            VolumeAt(plan, ordinal, n) - if d < n && plan.ordinals[d] == ordinal then moved else 0
  {
    if n > 0 {
      VolumeAtUpdate(plan, plan', d, moved, ordinal, n - 1);
    }
  }

  lemma ReserveIsTradable(symbol: Symbol)
    requires symbol.stepVolume > 0 && symbol.minVolume > 0
    ensures ReserveVolume(symbol) >= symbol.minVolume && ReserveVolume(symbol) % symbol.stepVolume == 0
  {
    StepDown(symbol.minVolume + symbol.stepVolume - 1, symbol.stepVolume);
  }

  lemma MovedVolume(slices: seq<int>, donor: nat, reserve: int)
    requires donor < |slices| && Positive(slices) && 0 < reserve && slices[donor] >= 2 * reserve
    ensures var moved := slices[donor := slices[donor] - reserve] + [reserve];
      Positive(moved) && Sum(moved) == Sum(slices)
  {
    PrefixUpdate(slices, donor, slices[donor] - reserve, |slices|);
    SumAppend(slices[donor := slices[donor] - reserve], reserve);
  }

  lemma FinalIsLast(some: seq<int>, all: seq<int>)
    requires all != [] && Increasing(all) && (forall i | 0 <= i < |some| :: some[i] in all) && all[|all| - 1] !in some
    ensures forall i | 0 <= i < |some| :: some[i] < all[|all| - 1]
  {
    forall i | 0 <= i < |some| ensures some[i] < all[|all| - 1] {
      var k :| 0 <= k < |all| && all[k] == some[i];
      assert some[i] in some;
    }
  }

  /** Reserving a runner keeps the leg's total and the order of its targets, and moves one
      tradable volume from a donor, which stays tradable, to the group's final target. */
  lemma RunnerMovesOneVolume(shallow: TargetPlan, plan: TargetPlan, symbol: Symbol, volume: int, ordinal: int)
    requires |shallow.slices| == |shallow.pips| == |shallow.ordinals| && |plan.pips| == |plan.ordinals|
    requires Positive(shallow.slices) && Sum(shallow.slices) == volume && Increasing(shallow.ordinals)
    requires forall i | 0 <= i < |shallow.ordinals| :: shallow.ordinals[i] in plan.ordinals
    requires Increasing(plan.ordinals)
    ensures var r := WithRunner(shallow, plan, symbol);
      && Positive(r.slices) && Sum(r.slices) == volume && Increasing(r.ordinals) && |r.slices| == |r.ordinals|
      && (r != shallow ==>
            var donor, final, reserve :=
              RunnerDonor(shallow, plan, symbol), plan.ordinals[|plan.ordinals| - 1], ReserveVolume(symbol);
            && final !in shallow.ordinals && reserve >= symbol.minVolume && reserve % symbol.stepVolume == 0
            && 0 <= donor < |shallow.slices| && r.slices[donor] >= symbol.minVolume
            && VolumeAt(r, ordinal, |r.slices|) == VolumeAt(shallow, ordinal, |shallow.slices|)
                 + (if ordinal == final then reserve else 0)
                 - (if ordinal == shallow.ordinals[donor] then reserve else 0))
  {
    var r := WithRunner(shallow, plan, symbol);
    var donor := RunnerDonor(shallow, plan, symbol);
    if donor >= 0 {
      var reserve := ReserveVolume(symbol);
      var final := plan.ordinals[|plan.ordinals| - 1];
      ReserveIsTradable(symbol);
      MovedVolume(shallow.slices, donor, reserve);
      VolumeAtUpdate(shallow, r, donor, reserve, ordinal, |shallow.slices|);
      FinalIsLast(shallow.ordinals, plan.ordinals);
    }
  }

  // ----- target totals over all legs ----------------------------------------------------------

  lemma {:induction false} VolumeAtFront(a: TargetPlan, b: TargetPlan, ordinal: int, n: nat)
    requires n <= |a.slices| == |a.ordinals| && n <= |b.slices| == |b.ordinals|
    requires forall i | 0 <= i < n :: a.slices[i] == b.slices[i] && a.ordinals[i] == b.ordinals[i]
    ensures VolumeAt(a, ordinal, n) == VolumeAt(b, ordinal, n)
  {
    if n > 0 {
      VolumeAtFront(a, b, ordinal, n - 1);
    }
  }

  /** What a leg books at one target number. */
  function Booked(pieces: seq<Piece>, ordinal: int): int { VolumeAt(PlanOf(pieces), ordinal, |pieces|) }

  lemma BookedAppend(pieces: seq<Piece>, x: Piece, ordinal: int)
    ensures Booked(pieces + [x], ordinal) == Booked(pieces, ordinal) + if x.ordinal == ordinal then x.volume else 0
  {
    VolumeAtFront(PlanOf(pieces + [x]), PlanOf(pieces), ordinal, |pieces|);
  }

  function BookedRow(plan: TargetPlan, legs: seq<int>, ordinal: int, n: nat): seq<int>
    requires |plan.slices| == |plan.pips| == |plan.ordinals| && n <= |plan.slices|
  {
    seq(|legs|, j requires 0 <= j < |legs| => Booked(Pieces(plan, legs, j, n), ordinal))
  }

  lemma BookedNext(plan: TargetPlan, legs: seq<int>, ordinal: int, n: nat, j: nat)
    requires |plan.slices| == |plan.pips| == |plan.ordinals| && n < |plan.slices| && j < |legs|
    ensures Booked(Pieces(plan, legs, j, n + 1), ordinal)
         == Booked(Pieces(plan, legs, j, n), ordinal)
            + if plan.ordinals[n] == ordinal then Share(plan.slices, legs, n, j) else 0
  {
    var before, share := Pieces(plan, legs, j, n), Share(plan.slices, legs, n, j);
    if share > 0 {
      BookedAppend(before, Piece(plan.pips[n], plan.ordinals[n], share), ordinal);
    } else {
      assert Pieces(plan, legs, j, n + 1) == before;
    }
  }

  /** The legs together book at each target what the first n slices of the group give it. */
  lemma {:induction false} LegsBookTheGroup(plan: TargetPlan, legs: seq<int>, symbol: Symbol, ordinal: int, n: nat)
    requires AllocationInput(legs, plan, symbol) && n <= |plan.slices|
    ensures Sum(BookedRow(plan, legs, ordinal, n)) == VolumeAt(plan, ordinal, n)
  {
    var row := BookedRow(plan, legs, ordinal, n);
    if n == 0 {
      AllZero(row, |row|);
    } else {
      LegsBookTheGroup(plan, legs, symbol, ordinal, n - 1);
      var before := BookedRow(plan, legs, ordinal, n - 1);
      forall j | 0 <= j < |legs|
        ensures row[j] == before[j] + if plan.ordinals[n - 1] == ordinal then ShareRow(plan.slices, legs, n - 1)[j]
            else 0
      {
        BookedNext(plan, legs, ordinal, n - 1, j);
      }
      if plan.ordinals[n - 1] == ordinal {
        PrefixAdd(before, ShareRow(plan.slices, legs, n - 1), row, |legs|);
        SliceIsMetExactly(plan, legs, symbol, n - 1);
      } else {
        assert row == before;
      }
    }
  }

  lemma {:induction false} AllZero(v: seq<int>, k: nat)
    requires k <= |v| && forall i | 0 <= i < |v| :: v[i] == 0
    ensures Prefix(v, k) == 0
  {
    if k > 0 {
      AllZero(v, k - 1);
    }
  }

  /** Every plan has as many slices as target numbers. */
  predicate Shaped(plans: seq<TargetPlan>) { forall j | 0 <= j < |plans| :: |plans[j].slices| == |plans[j].ordinals| }

  function TotalsAt(plans: seq<TargetPlan>, ordinal: int): seq<int>
    requires Shaped(plans)
  {
    seq(|plans|, j requires 0 <= j < |plans| => VolumeAt(plans[j], ordinal, |plans[j].slices|))
  }

  /** How the runner changes what is booked at a target number. */
  function RunnerShift(shallow: TargetPlan, plan: TargetPlan, symbol: Symbol, ordinal: int): int {
    var donor := RunnerDonor(shallow, plan, symbol);
    if donor < 0 || donor >= |shallow.ordinals| then 0
    else (if ordinal == plan.ordinals[|plan.ordinals| - 1] then ReserveVolume(symbol) else 0)
         - (if ordinal == shallow.ordinals[donor] then ReserveVolume(symbol) else 0)
  }

  lemma RunnerShifts(shallow: TargetPlan, plan: TargetPlan, symbol: Symbol, volume: int, ordinal: int)
    requires |shallow.slices| == |shallow.pips| == |shallow.ordinals| && |plan.pips| == |plan.ordinals|
    requires Positive(shallow.slices) && Sum(shallow.slices) == volume && Increasing(shallow.ordinals)
    requires forall i | 0 <= i < |shallow.ordinals| :: shallow.ordinals[i] in plan.ordinals
    requires Increasing(plan.ordinals)
    ensures var r := WithRunner(shallow, plan, symbol);
      |r.slices| == |r.ordinals|
      && VolumeAt(r, ordinal, |r.slices|)
         == VolumeAt(shallow, ordinal, |shallow.slices|) + RunnerShift(shallow, plan, symbol, ordinal)
  {
    RunnerMovesOneVolume(shallow, plan, symbol, volume, ordinal);
    if RunnerDonor(shallow, plan, symbol) >= 0 {
      assert |WithRunner(shallow, plan, symbol).slices| == |shallow.slices| + 1;
    }
  }

  /** Over all legs of an allocation each target books what the group's plan gives it; the only
      change is one tradable volume moved from a target of the shallow leg to the final one. */
  lemma AllocationKeepsTargets(plans: seq<TargetPlan>, plan: TargetPlan, legs: seq<int>, symbol: Symbol, ordinal: int)
    requires AllocationInput(legs, plan, symbol) && Allocated(plans, plan, legs, symbol)
    ensures Shaped(plans)
    ensures Sum(TotalsAt(plans, ordinal))
         == VolumeAt(plan, ordinal, |plan.slices|) + RunnerShift(LegPlan(plan, legs, 0), plan, symbol, ordinal)
  {
    var shallow, n := LegPlan(plan, legs, 0), |plan.slices|;
    LegPlanSpendsTheLeg(plan, legs, symbol, 0);
    RunnerShifts(shallow, plan, symbol, legs[0], ordinal);
    LegsBookTheGroup(plan, legs, symbol, ordinal, n);
    var row, totals := BookedRow(plan, legs, ordinal, n), TotalsAt(plans, ordinal);
    assert totals == row[0 := row[0] + RunnerShift(shallow, plan, symbol, ordinal)];
    PrefixUpdate(row, 0, totals[0], |row|);
  }
}
